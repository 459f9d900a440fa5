/** A tile to stand on beside somebody: searched ring by ring outward. */
module Ring {
  import opened Sorting
  import opened Text

  datatype Floor = Floor(width: int, height: int, walkable: seq<bool>)

  datatype Tile = Tile(x: int, y: int)

  predicate IsWalkable(floor: Floor, t: Tile) {
    && 0 <= t.x < floor.width && 0 <= t.y < floor.height
    && 0 <= t.y * floor.width + t.x < |floor.walkable| && floor.walkable[t.y * floor.width + t.x]
  }

  predicate Usable(floor: Floor, occupied: set<Tile>, t: Tile) {
    IsWalkable(floor, t) && t !in occupied
  }

  function Abs(n: int): nat {
    if n < 0 then -n else n
  }

  /** Which ring around `o` a tile is on: the larger of its two offsets. */
  function RingOf(o: Tile, t: Tile): nat {
    Max(Abs(t.x - o.x), Abs(t.y - o.y))
  }

  function Max(a: nat, b: nat): nat {
    if a > b then a else b
  }

  function Distance2(o: Tile, t: Tile): nat {
    SquareOf(t.x - o.x) + SquareOf(t.y - o.y)
  }

  function SquareOf(n: int): nat {
    assert n * n >= 0;
    n * n
  }

  /** Column by column, each from its low end: the order the offsets are counted out in. */
  predicate Earlier(a: Tile, b: Tile) {
    a.x < b.x || (a.x == b.x && a.y < b.y)
  }

  /** The order a stable sort by distance leaves: equals stay as they were counted out. */
  predicate Sooner(o: Tile, a: Tile, b: Tile) {
    Distance2(o, a) < Distance2(o, b) || (Distance2(o, a) == Distance2(o, b) && Earlier(a, b))
  }

  /** The answer: on the innermost ring with a usable tile, of that ring's usable tiles the
      closest, and of equally close ones the first counted out. None when no ring has one. */
  ghost predicate Beside(floor: Floor, occupied: set<Tile>, o: Tile, maxRings: int, answer: Option<Tile>) {
    match answer
    case None =>
      forall s :: 1 <= RingOf(o, s) <= maxRings ==> !Usable(floor, occupied, s)
    case Some(t) =>
      && 1 <= RingOf(o, t) <= maxRings && Usable(floor, occupied, t)
      && (forall s :: 1 <= RingOf(o, s) < RingOf(o, t) ==> !Usable(floor, occupied, s))
      && (forall s :: RingOf(o, s) == RingOf(o, t) && Usable(floor, occupied, s) && s != t ==> Sooner(o, t, s))
  }

  method TileBeside(floor: Floor, o: Tile, occupied: set<Tile>, maxRings: int := 4) returns (answer: Option<Tile>)
    ensures Beside(floor, occupied, o, maxRings, answer)
  {
    hide Usable, RingOf, Distance2, Earlier, StableSort;
    var ring := 1;
    while ring <= maxRings
      invariant ring >= 1
      invariant forall s :: 1 <= RingOf(o, s) < ring && RingOf(o, s) <= maxRings ==> !Usable(floor, occupied, s)
    {
      var candidates := CountOut(o, ring);
      var distance := (t: Tile) => Distance2(o, t);
      var sorted := StableSort(candidates, distance);
      SortMeans(candidates, distance, Earlier);
      for n := 0 to |sorted|
        invariant forall i :: 0 <= i < n ==> !Usable(floor, occupied, sorted[i])
      {
        if Usable(floor, occupied, sorted[n]) {
          return Some(sorted[n]);
        }
      }
      ring := ring + 1;
    }
    return None;
  }

  /** The edge of a ring, each tile of it once. */
  method CountOut(o: Tile, ring: int) returns (candidates: seq<Tile>)
    requires ring >= 0
    ensures Increasing(candidates, Earlier)
    ensures forall t :: t in candidates <==> RingOf(o, t) == ring
  {
    candidates := [];
    for dx := -ring to ring + 1
      invariant Increasing(candidates, Earlier)
      invariant forall t :: t in candidates <==> RingOf(o, t) == ring && t.x < o.x + dx
    {
      for dy := -ring to ring + 1
        invariant Increasing(candidates, Earlier)
        invariant forall t :: t in candidates <==>
                    RingOf(o, t) == ring && (t.x < o.x + dx || (t.x == o.x + dx && t.y < o.y + dy))
      {
        // tiles nearer in are on smaller rings
        if Max(Abs(dx), Abs(dy)) == ring {
          candidates := candidates + [Tile(o.x + dx, o.y + dy)];
        }
      }
    }
  }

  // --- a floor as it is drawn -------------------------------------------------------

  function Flat(rows: seq<seq<bool>>): seq<bool> {
    if rows == [] then [] else Flat(rows[..|rows| - 1]) + rows[|rows| - 1]
  }

  /** A drawing, row by row: true where one can walk. */
  function Drawn(rows: seq<seq<bool>>, width: nat): Floor {
    Floor(width, |rows|, Flat(rows))
  }

  lemma {:induction false} FlatAt(rows: seq<seq<bool>>, width: nat, x: nat, y: nat)
    requires forall r :: 0 <= r < |rows| ==> |rows[r]| == width
    requires x < width && y < |rows|
    ensures |Flat(rows)| == |rows| * width && 0 <= y * width + x < |Flat(rows)|
    ensures Flat(rows)[y * width + x] == rows[y][x]
  {
    var last := |rows| - 1;
    assert |Flat(rows[..last])| == last * width by {
      if last > 0 { FlatAt(rows[..last], width, 0, 0); }
    }
    assert |rows| * width == last * width + width;
    if y < last {
      FlatAt(rows[..last], width, x, y);
    }
  }

  /** A tile can be stood on exactly where it is drawn so, row `y` and column `x`; so nobody is ever sent
      into a wall, off the floor or onto somebody. */
  lemma DrawnIsWalkable(rows: seq<seq<bool>>, width: nat, occupied: set<Tile>, o: Tile, maxRings: int,
                        answer: Option<Tile>, t: Tile)
    requires forall r :: 0 <= r < |rows| ==> |rows[r]| == width
    ensures IsWalkable(Drawn(rows, width), t) <==> 0 <= t.x < width && 0 <= t.y < |rows| && rows[t.y][t.x]
    ensures Beside(Drawn(rows, width), occupied, o, maxRings, answer) && answer == Some(t) ==>
              0 <= t.x < width && 0 <= t.y < |rows| && rows[t.y][t.x] && t !in occupied
  {
    if 0 <= t.x < width && 0 <= t.y < |rows| { FlatAt(rows, width, t.x, t.y); }
  }

  // --- is it the nearest? ---------------------------------------------------------

  /** There is one answer, so the method's is it. */
  lemma OneAnswer(floor: Floor, occupied: set<Tile>, o: Tile, maxRings: int, a: Option<Tile>, b: Option<Tile>)
    requires Beside(floor, occupied, o, maxRings, a) && Beside(floor, occupied, o, maxRings, b)
    ensures a == b
  {
    hide Usable, RingOf, Distance2;
    if a.Some? && b.Some? {
      assert RingOf(o, a.value) == RingOf(o, b.value);
    }
  }

  /** No usable tile of the rings searched is closer, the origin's own aside. */
  ghost predicate IsNearest(floor: Floor, occupied: set<Tile>, o: Tile, maxRings: int, t: Tile) {
    forall s :: 1 <= RingOf(o, s) <= maxRings && Usable(floor, occupied, s) ==> Distance2(o, t) <= Distance2(o, s)
  }

  lemma RingReaches(o: Tile, t: Tile)
    ensures var r := RingOf(o, t); r * r <= Distance2(o, t) <= 2 * (r * r)
  {
    var dx, dy := Abs(t.x - o.x), Abs(t.y - o.y);
    SquareGrows(dx, RingOf(o, t));
    SquareGrows(dy, RingOf(o, t));
    assert SquareOf(t.x - o.x) == dx * dx && SquareOf(t.y - o.y) == dy * dy;
  }

  lemma SquareGrows(a: nat, b: nat)
    ensures a <= b ==> a * a <= b * b
  {
    if a <= b { assert b * b == a * a + (b - a) * (a + b); }
  }

  /** A free tile no farther than the next ring's own nearest, or on the last ring, is the
      nearest there is. */
  lemma CloseEnoughIsNearest(floor: Floor, occupied: set<Tile>, o: Tile, maxRings: int, t: Tile)
    requires Beside(floor, occupied, o, maxRings, Some(t))
    requires RingOf(o, t) == maxRings || Distance2(o, t) <= (RingOf(o, t) + 1) * (RingOf(o, t) + 1)
    ensures IsNearest(floor, occupied, o, maxRings, t)
  {
    hide Usable;
    var r := RingOf(o, t);
    forall s | 1 <= RingOf(o, s) <= maxRings && Usable(floor, occupied, s) ensures Distance2(o, t) <= Distance2(o, s) {
      if RingOf(o, s) > r {
        RingReaches(o, s);
        SquareGrows(r + 1, RingOf(o, s));
      }
    }
  }

  /** A floor with just two free tiles. */
  function TwoFree(width: nat, height: nat, a: Tile, b: Tile): (Floor, set<Tile>) {
    (Floor(width, height, seq(width * height, _ => true)),
     AllBut(width, height, a, b))
  }

  function AllBut(width: nat, height: nat, a: Tile, b: Tile): set<Tile> {
    set x, y | 0 <= x < width && 0 <= y < height && Tile(x, y) != a && Tile(x, y) != b :: Tile(x, y)
  }

  lemma OnlyTheTwo(width: nat, height: nat, a: Tile, b: Tile, t: Tile)
    requires 0 <= a.x < width && 0 <= a.y < height && 0 <= b.x < width && 0 <= b.y < height
    ensures var (floor, occupied) := TwoFree(width, height, a, b);
            Usable(floor, occupied, t) <==> t == a || t == b
  {
    if 0 <= t.x < width && 0 <= t.y < height {
      IndexFits(width, height, t.x, t.y);
      assert t == Tile(t.x, t.y);
    }
  }

  lemma IndexFits(width: nat, height: nat, x: nat, y: nat)
    requires x < width && y < height
    ensures 0 <= y * width + x < width * height
  {
    var below := height - 1 - y;
    assert below * width >= 0;
    assert width * height == width * (y + 1 + below) == width * y + width + below * width;
  }

  /** Where the answer is certain to be the nearest, whatever else is free: exactly on the last
      ring, or no farther than the middle of the next ring's side. */
  lemma NearestExactly(o: Tile, t: Tile, maxRings: int)
    requires o.x >= 0 && o.y >= 0 && t.x >= 0 && t.y >= 0 && 1 <= RingOf(o, t) <= maxRings
    ensures var r := RingOf(o, t);
            (forall floor, occupied :: Beside(floor, occupied, o, maxRings, Some(t)) ==>
                IsNearest(floor, occupied, o, maxRings, t))
            <==> r == maxRings || Distance2(o, t) <= (r + 1) * (r + 1)
  {
    var r := RingOf(o, t);
    if r == maxRings || Distance2(o, t) <= (r + 1) * (r + 1) {
      forall floor, occupied | Beside(floor, occupied, o, maxRings, Some(t))
        ensures IsNearest(floor, occupied, o, maxRings, t)
      {
        CloseEnoughIsNearest(floor, occupied, o, maxRings, t);
      }
    } else {
      SideIsNearer(o, t, maxRings);
    }
  }

  lemma SideIsNearer(o: Tile, t: Tile, maxRings: int)
    requires o.x >= 0 && o.y >= 0 && t.x >= 0 && t.y >= 0 && 1 <= RingOf(o, t) < maxRings
    requires Distance2(o, t) > (RingOf(o, t) + 1) * (RingOf(o, t) + 1)
    ensures exists floor, occupied ::
              Beside(floor, occupied, o, maxRings, Some(t)) && !IsNearest(floor, occupied, o, maxRings, t)
  {
    var r := RingOf(o, t);
    var side := Tile(o.x + r + 1, o.y);
    var width, height := o.x + r + 2, o.y + r + 1;
    var (floor, occupied) := TwoFree(width, height, t, side);
    hide TwoFree, Usable;
    forall s ensures Usable(floor, occupied, s) <==> s == t || s == side {
      OnlyTheTwo(width, height, t, side, s);
    }
    assert RingOf(o, side) == r + 1 && Distance2(o, side) == (r + 1) * (r + 1);
    assert Beside(floor, occupied, o, maxRings, Some(t));
    assert !IsNearest(floor, occupied, o, maxRings, t);
  }

  /** "The nearest free tile" is what the answer is on every floor when at most three rings are
      searched, and on some floor it is not when more are, four being the default: the corner
      of the third ring is 18 away by squares, the middle of the fourth ring's side 16. */
  lemma NearestUpToThreeRings(maxRings: int)
    ensures (forall floor, occupied, o, t ::
               Beside(floor, occupied, o, maxRings, Some(t)) ==> IsNearest(floor, occupied, o, maxRings, t))
            <==> maxRings <= 3
  {
    if maxRings <= 3 {
      forall floor, occupied, o, t | Beside(floor, occupied, o, maxRings, Some(t))
        ensures IsNearest(floor, occupied, o, maxRings, t)
      {
        RingReaches(o, t);
        var r := RingOf(o, t);
        assert r == 1 || r == 2 || r == 3;
        CloseEnoughIsNearest(floor, occupied, o, maxRings, t);
      }
    } else {
      var o, t := Tile(0, 0), Tile(3, 3);
      assert RingOf(o, t) == 3 && Distance2(o, t) == 18;
      SideIsNearer(o, t, maxRings);
    }
  }
}
