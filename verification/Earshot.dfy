/** Who hears whom in an office: pairs of humans close enough to talk, kept
    across ticks so that each tick says what changed. */
module Earshot {
  import opened Text

  const VOICE_LEAVE_MARGIN_TILES := 2.0

  datatype Player = Player(id: string, human: bool, x: real, y: real)

  /** A pair that started (`enter`) or stopped hearing each other. */
  datatype Delta = Delta(a: string, b: string, enter: bool)

  /** The pairs tracked, in the order they were added, and the changes said so far. */
  datatype Graph = Graph(pairs: seq<string>, deltas: seq<Delta>)

  /** Why a key is swept: its pair was not seen this tick, or one of the two left the office. */
  datatype Reason = Unseen(seen: set<string>) | Left(id: string)

  function PairKey(a: string, b: string): string {
    if Before(a, b) then a + " " + b else b + " " + a
  }

  /** `hypot(dx, dy) <= reach`, without the root. */
  predicate Within(a: Player, b: Player, reach: real) {
    reach >= 0.0 && (a.x - b.x) * (a.x - b.x) + (a.y - b.y) * (a.y - b.y) <= reach * reach
  }

  function Humans(players: seq<Player>): (humans: seq<Player>)
    ensures forall h :: h in humans <==> h in players && h.human
  {
    if players == [] then []
    else
      var rest, last := Humans(players[..|players| - 1]), players[|players| - 1];
      assert players == players[..|players| - 1] + [last];
      if last.human then rest + [last] else rest
  }

  function Without(keys: seq<string>, key: string): (rest: seq<string>)
    ensures forall k :: k in rest <==> k in keys && k != key
    ensures NoRepeats(keys) ==> NoRepeats(rest)
  {
    if keys == [] then []
    else
      var rest, last := Without(keys[..|keys| - 1], key), keys[|keys| - 1];
      assert (rest + [last])[..|rest|] == rest;
      if last == key then rest else rest + [last]
  }

  predicate NoRepeats(keys: seq<string>) {
    keys == [] || (keys[|keys| - 1] !in keys[..|keys| - 1] && NoRepeats(keys[..|keys| - 1]))
  }

  // --- one update, turn by turn ----------------------------------------------------

  /** One pair of humans: the turn of the inner loop. */
  function Meet(g: Graph, a: Player, b: Player, radius: real, margin: real): Graph {
    var key := PairKey(a.id, b.id);
    if key !in g.pairs && Within(a, b, radius) then
      Graph(g.pairs + [key], g.deltas + [Delta(a.id, b.id, true)])
    else if key in g.pairs && !Within(a, b, radius + margin) then
      Graph(Without(g.pairs, key), g.deltas + [Delta(a.id, b.id, false)])
    else g
  }

  /** Human `i` against those after it, up to `j`. */
  function Row(g: Graph, humans: seq<Player>, i: nat, j: nat, radius: real, margin: real): Graph
    requires i < j <= |humans|
    decreases j
  {
    if j == i + 1 then g else Meet(Row(g, humans, i, j - 1, radius, margin), humans[i], humans[j - 1], radius, margin)
  }

  /** The first `i` humans, each against all after it. */
  function Grid(g: Graph, humans: seq<Player>, i: nat, radius: real, margin: real): Graph
    requires i <= |humans|
  {
    if i == 0 then g else Row(Grid(g, humans, i - 1, radius, margin), humans, i - 1, |humans|, radius, margin)
  }

  function SeenInRow(humans: seq<Player>, i: nat, j: nat): set<string>
    requires i < j <= |humans|
  {
    if j == i + 1 then {} else SeenInRow(humans, i, j - 1) + {PairKey(humans[i].id, humans[j - 1].id)}
  }

  function Seen(humans: seq<Player>, i: nat): set<string>
    requires i <= |humans|
  {
    if i == 0 then {} else Seen(humans, i - 1) + SeenInRow(humans, i - 1, |humans|)
  }

  /** The two ids a key is cut into. */
  function Ends(key: string): (string, string) {
    var parts := Split(key, ' ');
    (parts[0], if |parts| > 1 then parts[1] else "")
  }

  predicate Falls(why: Reason, key: string) {
    match why
    case Unseen(seen) => key !in seen
    case Left(id) => Ends(key).0 == id || Ends(key).1 == id
  }

  function Sweep(g: Graph, keys: seq<string>, why: Reason): Graph {
    if keys == [] then g
    else
      var before, key := Sweep(g, keys[..|keys| - 1], why), keys[|keys| - 1];
      if !Falls(why, key) then before
      else Graph(Without(before.pairs, key), before.deltas + [Delta(Ends(key).0, Ends(key).1, false)])
  }

  function Updated(pairs: seq<string>, players: seq<Player>, radius: real, margin: real): Graph {
    var humans := Humans(players);
    var met := Grid(Graph(pairs, []), humans, |humans|, radius, margin);
    Sweep(met, met.pairs, Unseen(Seen(humans, |humans|)))
  }

  function Removed(pairs: seq<string>, id: string): Graph {
    Sweep(Graph(pairs, []), pairs, Left(id))
  }

  function HearersOf(pairs: seq<string>, id: string): seq<string> {
    if pairs == [] then []
    else
      var rest, (a, b) := HearersOf(pairs[..|pairs| - 1], id), Ends(pairs[|pairs| - 1]);
      if a == id then rest + [b] else if b == id then rest + [a] else rest
  }

  // --- the tracker -------------------------------------------------------------------

  class EarshotTracker {
    var pairs: seq<string>
    const leaveMargin: real

    constructor (leaveMargin: real := VOICE_LEAVE_MARGIN_TILES)
      ensures pairs == [] && this.leaveMargin == leaveMargin
    {
      this.pairs, this.leaveMargin := [], leaveMargin;
    }

    method Update(players: seq<Player>, radius: real) returns (deltas: seq<Delta>)
      modifies this
      ensures Graph(pairs, deltas) == Updated(old(pairs), players, radius, leaveMargin)
    {
      hide PairKey, Within, Without, Humans, Sweep;
      var humans := Humans(players);
      var seen: set<string> := {};
      deltas := [];
      ghost var start := Graph(pairs, []);
      for i := 0 to |humans|
        invariant Graph(pairs, deltas) == Grid(start, humans, i, radius, leaveMargin)
        invariant seen == Seen(humans, i)
      {
        ghost var row := Graph(pairs, deltas);
        for j := i + 1 to |humans|
          invariant Graph(pairs, deltas) == Row(row, humans, i, j, radius, leaveMargin)
          invariant seen == Seen(humans, i) + SeenInRow(humans, i, j)
        {
          var a, b := humans[i], humans[j];
          var key := PairKey(a.id, b.id);
          seen := seen + {key};
          var inside := key in pairs;
          if !inside && Within(a, b, radius) {
            pairs := pairs + [key];
            deltas := deltas + [Delta(a.id, b.id, true)];
          } else if inside && !Within(a, b, radius + leaveMargin) {
            pairs := Without(pairs, key);
            deltas := deltas + [Delta(a.id, b.id, false)];
          }
        }
      }
      // whatever no turn of the loops has met is over
      deltas := DropWhere(deltas, Unseen(seen));
    }

    method Remove(id: string) returns (deltas: seq<Delta>)
      modifies this
      ensures Graph(pairs, deltas) == Removed(old(pairs), id)
    {
      deltas := DropWhere([], Left(id));
    }

    method DropWhere(said: seq<Delta>, why: Reason) returns (deltas: seq<Delta>)
      modifies this
      ensures Graph(pairs, deltas) == Sweep(Graph(old(pairs), said), old(pairs), why)
    {
      deltas := said;
      var keys := pairs;
      assert keys[..|keys|] == keys;
      for n := 0 to |keys|
        invariant Graph(pairs, deltas) == Sweep(Graph(keys, said), keys[..n], why)
      {
        assert keys[..n + 1][..n] == keys[..n];
        var key := keys[n];
        if Falls(why, key) {
          pairs := Without(pairs, key);
          deltas := deltas + [Delta(Ends(key).0, Ends(key).1, false)];
        }
      }
    }

    method Hearers(id: string) returns (out: seq<string>)
      ensures out == HearersOf(pairs, id)
    {
      out := [];
      assert pairs[..|pairs|] == pairs;
      for n := 0 to |pairs|
        invariant out == HearersOf(pairs[..n], id)
      {
        assert pairs[..n + 1][..n] == pairs[..n];
        var (a, b) := Ends(pairs[n]);
        if a == id {
          out := out + [b];
        } else if b == id {
          out := out + [a];
        }
      }
    }
  }
}
