/** What the tracker's changes add up to, and who can ever be heard. */
module EarshotLaws {
  import opened Text
  import opened Earshot

  // --- keys ------------------------------------------------------------------------

  /** Ids as the office gives them out: no spaces, and no two players alike. */
  predicate Spaceless(id: string) {
    ' ' !in id
  }

  ghost predicate DistinctIds(players: seq<Player>) {
    && (forall i :: 0 <= i < |players| ==> Spaceless(players[i].id))
    && (forall i, j :: 0 <= i < j < |players| ==> players[i].id != players[j].id)
  }

  /** A key that cuts into two different ids and is the key of those two. */
  predicate Proper(key: string) {
    var (a, b) := Ends(key);
    Spaceless(a) && Spaceless(b) && a != b && key == PairKey(a, b)
  }

  ghost predicate AllProper(keys: seq<string>) {
    forall k :: k in keys ==> Proper(k)
  }

  /** A key is cut back into the two ids it was made of, whichever order they came in. */
  lemma KeyCuts(a: string, b: string)
    requires Spaceless(a) && Spaceless(b)
    ensures PairKey(a, b) == PairKey(b, a)
    ensures Ends(PairKey(a, b)) == (a, b) || Ends(PairKey(a, b)) == (b, a)
    ensures a != b ==> Proper(PairKey(a, b))
  {
    BeforeTotal(a, b);
    if Before(a, b) && Before(b, a) {
      BeforeTransitive(a, b, a);
      BeforeIrreflexive(a);
    }
    SplitAround(a, b, ' ');
    SplitAround(b, a, ' ');
    assert Split(a, ' ') == [a] && Split(b, ' ') == [b] by {
      SplitAround(a, a, ' ');
      SplitAround(b, b, ' ');
    }
    assert a + " " + b == a + [' '] + b && b + " " + a == b + [' '] + a;
  }

  /** Two pairs with one key are the same two people. */
  lemma KeysApart(a: string, b: string, c: string, d: string)
    requires Spaceless(a) && Spaceless(b) && Spaceless(c) && Spaceless(d)
    ensures PairKey(a, b) == PairKey(c, d) <==> (a == c && b == d) || (a == d && b == c)
  {
    KeyCuts(a, b);
    KeyCuts(c, d);
  }

  /** Being within reach is being no farther apart than it, by the straight distance `d` between the two. */
  lemma WithinIsDistance(a: Player, b: Player, reach: real, d: real)
    requires d >= 0.0 && d * d == (a.x - b.x) * (a.x - b.x) + (a.y - b.y) * (a.y - b.y)
    ensures Within(a, b, reach) <==> d <= reach
    ensures Within(a, b, reach) <==> Within(b, a, reach)
  {
    if d <= reach { Wider(d, reach); } else if reach >= 0.0 { Wider(reach, d); }
  }

  lemma Wider(a: real, b: real)
    requires 0.0 <= a <= b
    ensures a * a <= b * b && (a < b ==> a * a < b * b)
  {
    assert b * b == a * a + (b - a) * (a + b);
    if a < b { Positive(b - a, a + b); }
  }

  lemma Positive(x: real, y: real)
    requires x > 0.0 && y > 0.0
    ensures x * y > 0.0
  {
  }

  // --- replaying -------------------------------------------------------------------

  function KeyOf(d: Delta): string {
    PairKey(d.a, d.b)
  }

  /** What a peer that only hears the changes believes; `None` once one of them enters a pair
      already in or leaves a pair not in. */
  function Replay(tracked: set<string>, deltas: seq<Delta>): Option<set<string>> {
    if deltas == [] then Some(tracked)
    else
      var d, before := deltas[|deltas| - 1], Replay(tracked, deltas[..|deltas| - 1]);
      if before.None? || d.enter == (KeyOf(d) in before.value) then None
      else Some(if d.enter then before.value + {KeyOf(d)} else before.value - {KeyOf(d)})
  }

  /** How often a pair is spoken of. */
  function Said(deltas: seq<Delta>, key: string): nat {
    if deltas == [] then 0
    else Said(deltas[..|deltas| - 1], key) + (if KeyOf(deltas[|deltas| - 1]) == key then 1 else 0)
  }

  function ToSet(keys: seq<string>): set<string> {
    set k | k in keys
  }

  lemma ReplayOneMore(tracked: set<string>, deltas: seq<Delta>, d: Delta)
    ensures var before := Replay(tracked, deltas);
            Replay(tracked, deltas + [d])
            == if before.None? || d.enter == (KeyOf(d) in before.value) then None
               else Some(if d.enter then before.value + {KeyOf(d)} else before.value - {KeyOf(d)})
    ensures forall k :: Said(deltas + [d], k) == Said(deltas, k) + (if KeyOf(d) == k then 1 else 0)
  {
    assert (deltas + [d])[..|deltas|] == deltas;
  }

  lemma {:induction false} ReplayOn(tracked: set<string>, first: seq<Delta>, second: seq<Delta>)
    requires Replay(tracked, first).Some?
    ensures Replay(tracked, first + second) == Replay(Replay(tracked, first).value, second)
    decreases |second|
  {
    if second == [] {
      assert first + second == first;
    } else {
      var init, last := second[..|second| - 1], second[|second| - 1];
      ReplayOn(tracked, first, init);
      assert first + second == (first + init) + [last];
      ReplayOneMore(tracked, first + init, last);
    }
  }

  /** The graph holds proper keys, each once, and its changes lead from `start` to it. */
  ghost predicate Sound(start: set<string>, g: Graph) {
    && NoRepeats(g.pairs) && AllProper(g.pairs)
    && Replay(start, g.deltas) == Some(ToSet(g.pairs))
  }

  lemma MeetIsSound(start: set<string>, g: Graph, a: Player, b: Player, radius: real, margin: real)
    requires Sound(start, g) && Spaceless(a.id) && Spaceless(b.id) && a.id != b.id
    ensures Sound(start, Meet(g, a, b, radius, margin))
  {
    hide Replay, Within;
    KeyCuts(a.id, b.id);
    var key, next := PairKey(a.id, b.id), Meet(g, a, b, radius, margin);
    hide Proper, PairKey;
    if next != g {
      var d := Delta(a.id, b.id, next.deltas[|next.deltas| - 1].enter);
      ReplayOneMore(start, g.deltas, d);
      assert KeyOf(d) == key;
      assert d.enter ==> (g.pairs + [key])[..|g.pairs|] == g.pairs;
      assert ToSet(next.pairs) == if d.enter then ToSet(g.pairs) + {key} else ToSet(g.pairs) - {key};
    }
  }

  lemma {:induction false} RowIsSound(start: set<string>, g: Graph, humans: seq<Player>, i: nat, j: nat, radius: real,
                                      margin: real)
    requires Sound(start, g) && DistinctIds(humans) && i < j <= |humans|
    ensures Sound(start, Row(g, humans, i, j, radius, margin))
  {
    hide Sound, Meet;
    if j > i + 1 {
      RowIsSound(start, g, humans, i, j - 1, radius, margin);
      MeetIsSound(start, Row(g, humans, i, j - 1, radius, margin), humans[i], humans[j - 1], radius, margin);
    }
  }

  lemma {:induction false} GridIsSound(start: set<string>, g: Graph, humans: seq<Player>, i: nat, radius: real,
                                       margin: real)
    requires Sound(start, g) && DistinctIds(humans) && i <= |humans|
    ensures Sound(start, Grid(g, humans, i, radius, margin))
  {
    hide Sound, Row;
    if i == 0 {
    } else {
      GridIsSound(start, g, humans, i - 1, radius, margin);
      RowIsSound(start, Grid(g, humans, i - 1, radius, margin), humans, i - 1, |humans|, radius, margin);
    }
  }

  /** A sweep ends exactly the pairs that fall, each with one change. */
  lemma {:induction false} SweepIsSound(start: set<string>, g: Graph, n: nat, why: Reason)
    requires Sound(start, g) && n <= |g.pairs|
    ensures var swept := Sweep(g, g.pairs[..n], why);
            && Sound(start, swept)
            && (forall k :: k in swept.pairs <==> k in g.pairs && !(k in g.pairs[..n] && Falls(why, k)))
            && (forall k ::
                  Said(swept.deltas, k) == Said(g.deltas, k) + (if k in g.pairs[..n] && Falls(why, k) then 1 else 0))
  {
    hide Replay, Proper, Ends, PairKey, Falls;
    if n > 0 {
      SweepIsSound(start, g, n - 1, why);
      var key, before := g.pairs[n - 1], Sweep(g, g.pairs[..n - 1], why);
      assert g.pairs[..n][..n - 1] == g.pairs[..n - 1] && g.pairs[..n] == g.pairs[..n - 1] + [key];
      KeyIsNew(g.pairs, n - 1);
      if Falls(why, key) {
        EndIsSound(start, before, key);
      }
    }
  }

  lemma EndIsSound(start: set<string>, g: Graph, key: string)
    requires Sound(start, g) && key in g.pairs
    ensures var d := Delta(Ends(key).0, Ends(key).1, false);
            && KeyOf(d) == key && Sound(start, Graph(Without(g.pairs, key), g.deltas + [d]))
            && (forall k :: Said(g.deltas + [d], k) == Said(g.deltas, k) + (if key == k then 1 else 0))
  {
    hide Replay, Ends, PairKey;
    var d := Delta(Ends(key).0, Ends(key).1, false);
    assert Proper(key);
    ReplayOneMore(start, g.deltas, d);
    assert ToSet(Without(g.pairs, key)) == ToSet(g.pairs) - {key};
  }

  lemma {:induction false} KeyIsNew(keys: seq<string>, n: nat)
    requires NoRepeats(keys) && n < |keys|
    ensures keys[n] !in keys[..n]
  {
    if n < |keys| - 1 {
      KeyIsNew(keys[..|keys| - 1], n);
      assert keys[..|keys| - 1][..n] == keys[..n];
    }
  }

  // --- one update -------------------------------------------------------------------

  lemma {:induction false} HumansDistinct(players: seq<Player>)
    requires DistinctIds(players)
    ensures DistinctIds(Humans(players))
  {
    if players == [] {
    } else {
      var init, last := players[..|players| - 1], players[|players| - 1];
      HumansDistinct(init);
      forall h | h in Humans(init) ensures h.id != last.id {
        assert h in init;
      }
    }
  }

  /** What a turn should leave a pair as: in once within the radius, out once past the margin. */
  predicate Keeps(a: Player, b: Player, tracked: bool, radius: real, margin: real) {
    if tracked then Within(a, b, radius + margin) else Within(a, b, radius)
  }

  function Changes(before: bool, after: bool): nat {
    if before != after then 1 else 0
  }

  lemma MeetTracks(g: Graph, a: Player, b: Player, radius: real, margin: real, key: string)
    ensures var next, was := Meet(g, a, b, radius, margin), key in g.pairs;
            var will := if key == PairKey(a.id, b.id) then Keeps(a, b, was, radius, margin) else was;
            && (key in next.pairs <==> will)
            && Said(next.deltas, key) == Said(g.deltas, key) + Changes(was, will)
  {
    hide Within, PairKey;
    var next := Meet(g, a, b, radius, margin);
    if next != g {
      ReplayOneMore({}, g.deltas, next.deltas[|next.deltas| - 1]);
    }
  }

  /** A row settles the pairs of its own human and leaves every other pair as it was. */
  lemma {:induction false} RowTracks(g: Graph, humans: seq<Player>, i: nat, j: nat, radius: real, margin: real,
                                     key: string)
    requires DistinctIds(humans) && i < j <= |humans|
    ensures var next, was := Row(g, humans, i, j, radius, margin), key in g.pairs;
            && ((forall q :: i < q < j ==> key != PairKey(humans[i].id, humans[q].id)) ==>
                  (key in next.pairs <==> was) && Said(next.deltas, key) == Said(g.deltas, key))
            && (forall q :: i < q < j && key == PairKey(humans[i].id, humans[q].id) ==>
                  var will := Keeps(humans[i], humans[q], was, radius, margin);
                  (key in next.pairs <==> will) && Said(next.deltas, key) == Said(g.deltas, key) + Changes(was, will))
  {
    hide PairKey, Keeps, Meet, Said;
    if j > i + 1 {
      RowTracks(g, humans, i, j - 1, radius, margin, key);
      MeetTracks(Row(g, humans, i, j - 1, radius, margin), humans[i], humans[j - 1], radius, margin, key);
      forall q | i < q < j - 1 ensures PairKey(humans[i].id, humans[q].id) != PairKey(humans[i].id, humans[j - 1].id) {
        KeysApart(humans[i].id, humans[q].id, humans[i].id, humans[j - 1].id);
      }
    }
  }

  /** Distinct people make distinct keys. */
  lemma PairsApart(humans: seq<Player>, p: nat, q: nat, key: string)
    requires DistinctIds(humans) && p < q < |humans| && key == PairKey(humans[p].id, humans[q].id)
    ensures forall i, j :: 0 <= i < j < |humans| && key == PairKey(humans[i].id, humans[j].id) ==> i == p && j == q
  {
    forall i, j | 0 <= i < j < |humans| && key == PairKey(humans[i].id, humans[j].id) ensures i == p && j == q {
      KeysApart(humans[p].id, humans[q].id, humans[i].id, humans[j].id);
    }
  }

  lemma {:induction false} GridLeaves(g: Graph, humans: seq<Player>, i: nat, radius: real, margin: real, key: string)
    requires DistinctIds(humans) && i <= |humans|
    requires forall p, q :: 0 <= p < i && p < q < |humans| ==> key != PairKey(humans[p].id, humans[q].id)
    ensures var next := Grid(g, humans, i, radius, margin);
            (key in next.pairs <==> key in g.pairs) && Said(next.deltas, key) == Said(g.deltas, key)
  {
    hide PairKey, Keeps, Row, Said;
    if i == 0 {
    } else {
      GridLeaves(g, humans, i - 1, radius, margin, key);
      RowTracks(Grid(g, humans, i - 1, radius, margin), humans, i - 1, |humans|, radius, margin, key);
    }
  }

  /** After the loops every pair of humans has been settled once, from what it was before them. */
  lemma {:induction false} GridSettles(g: Graph, humans: seq<Player>, i: nat, radius: real, margin: real,
                                       p: nat, q: nat)
    requires DistinctIds(humans) && p < i <= |humans| && p < q < |humans|
    ensures var next, key := Grid(g, humans, i, radius, margin), PairKey(humans[p].id, humans[q].id);
            var was := key in g.pairs;
            var will := Keeps(humans[p], humans[q], was, radius, margin);
            && (key in next.pairs <==> will)
            && Said(next.deltas, key) == Said(g.deltas, key) + Changes(was, will)
    decreases i
  {
    hide PairKey, Keeps, Row, Said;
    var key := PairKey(humans[p].id, humans[q].id);
    PairsApart(humans, p, q, key);
    RowTracks(Grid(g, humans, i - 1, radius, margin), humans, i - 1, |humans|, radius, margin, key);
    if p < i - 1 {
      GridSettles(g, humans, i - 1, radius, margin, p, q);
    } else {
      GridLeaves(g, humans, i - 1, radius, margin, key);
    }
  }

  lemma {:induction false} SeenMeans(humans: seq<Player>, i: nat, key: string)
    requires i <= |humans|
    ensures key in Seen(humans, i) <==>
              exists p, q :: 0 <= p < i && p < q < |humans| && key == PairKey(humans[p].id, humans[q].id)
  {
    hide PairKey;
    if i == 0 {
    } else {
      SeenMeans(humans, i - 1, key);
      SeenInRowMeans(humans, i - 1, |humans|, key);
    }
  }

  lemma {:induction false} SeenInRowMeans(humans: seq<Player>, i: nat, j: nat, key: string)
    requires i < j <= |humans|
    ensures key in SeenInRow(humans, i, j) <==> exists q :: i < q < j && key == PairKey(humans[i].id, humans[q].id)
  {
    hide PairKey;
    if j > i + 1 { SeenInRowMeans(humans, i, j - 1, key); }
  }

  /** A wider reach takes in everyone a narrower one does. */
  lemma WithinWidens(a: Player, b: Player, radius: real, margin: real)
    requires margin >= 0.0 && Within(a, b, radius)
    ensures Within(a, b, radius + margin)
  {
    assert (radius + margin) * (radius + margin) == radius * radius + margin * (radius + radius + margin);
    assert margin * (radius + radius + margin) >= 0.0;
  }

  lemma UpdateIsSound(pairs: seq<string>, players: seq<Player>, radius: real, margin: real)
    requires NoRepeats(pairs) && AllProper(pairs) && DistinctIds(players)
    ensures Sound(ToSet(pairs), Updated(pairs, players, radius, margin))
  {
    var humans := Humans(players);
    HumansDistinct(players);
    assert Sound(ToSet(pairs), Graph(pairs, []));
    GridIsSound(ToSet(pairs), Graph(pairs, []), humans, |humans|, radius, margin);
    hide Sound, Grid, Humans, Seen, Sweep;
    var met := Grid(Graph(pairs, []), humans, |humans|, radius, margin);
    assert met.pairs[..|met.pairs|] == met.pairs;
    SweepIsSound(ToSet(pairs), met, |met.pairs|, Unseen(Seen(humans, |humans|)));
  }

  /** Two humans who are both here hear each other after a tick exactly when they are within
      the radius, or already did and are within the radius and the margin. One change is
      said if that is news, none otherwise. */
  lemma UpdateTracks(pairs: seq<string>, players: seq<Player>, radius: real, margin: real, a: Player, b: Player)
    requires NoRepeats(pairs) && AllProper(pairs) && DistinctIds(players) && margin >= 0.0
    requires a in players && b in players && a.human && b.human && a != b
    ensures var next, key := Updated(pairs, players, radius, margin), PairKey(a.id, b.id);
            var will := Within(a, b, radius) || (key in pairs && Within(a, b, radius + margin));
            && (key in next.pairs <==> will)
            && Said(next.deltas, key) == Changes(key in pairs, will)
  {
    var humans, key := Humans(players), PairKey(a.id, b.id);
    HumansDistinct(players);
    var i :| 0 <= i < |humans| && humans[i] == a;
    var j :| 0 <= j < |humans| && humans[j] == b;
    var p, q := if i < j then i else j, if i < j then j else i;
    KeyCuts(a.id, b.id);
    WithinIsMutual(a, b, radius);
    WithinIsMutual(a, b, radius + margin);
    if Within(a, b, radius) { WithinWidens(a, b, radius, margin); }
    hide Humans, PairKey, Within, Said;
    SettledPair(pairs, players, radius, margin, p, q);
  }

  lemma WithinIsMutual(a: Player, b: Player, reach: real)
    ensures Within(a, b, reach) <==> Within(b, a, reach)
  {
    assert (a.x - b.x) * (a.x - b.x) == (b.x - a.x) * (b.x - a.x);
    assert (a.y - b.y) * (a.y - b.y) == (b.y - a.y) * (b.y - a.y);
  }

  lemma SettledPair(pairs: seq<string>, players: seq<Player>, radius: real, margin: real, p: nat, q: nat)
    requires NoRepeats(pairs) && AllProper(pairs) && DistinctIds(players) && p < q < |Humans(players)|
    ensures var humans, next := Humans(players), Updated(pairs, players, radius, margin);
            var key := PairKey(humans[p].id, humans[q].id);
            var was := key in pairs;
            var will := Keeps(humans[p], humans[q], was, radius, margin);
            (key in next.pairs <==> will) && Said(next.deltas, key) == Changes(was, will)
  {
    var humans, start := Humans(players), Graph(pairs, []);
    HumansDistinct(players);
    var key := PairKey(humans[p].id, humans[q].id);
    assert Sound(ToSet(pairs), start);
    GridIsSound(ToSet(pairs), start, humans, |humans|, radius, margin);
    assert Said([], key) == 0;
    hide Sound, Grid, Humans, Seen, Sweep, PairKey, Keeps, Said;
    GridSettles(start, humans, |humans|, radius, margin, p, q);
    SeenMeans(humans, |humans|, key);
    var met := Grid(start, humans, |humans|, radius, margin);
    assert met.pairs[..|met.pairs|] == met.pairs;
    SweepIsSound(ToSet(pairs), met, |met.pairs|, Unseen(Seen(humans, |humans|)));
  }

  /** Any other pair is over after a tick: one of the two has gone, or is no human. */
  lemma OthersEnd(pairs: seq<string>, players: seq<Player>, radius: real, margin: real, key: string)
    requires NoRepeats(pairs) && AllProper(pairs) && DistinctIds(players)
    requires forall a, b :: a in players && b in players && a.human && b.human && a != b ==> key != PairKey(a.id, b.id)
    ensures var next := Updated(pairs, players, radius, margin);
            key !in next.pairs && Said(next.deltas, key) == Changes(key in pairs, false)
  {
    var humans, start := Humans(players), Graph(pairs, []);
    HumansDistinct(players);
    assert Sound(ToSet(pairs), start);
    GridIsSound(ToSet(pairs), start, humans, |humans|, radius, margin);
    assert Said([], key) == 0;
    assert forall h :: h in humans ==> h in players && h.human;
    hide Sound, Grid, Humans, Seen, Sweep, PairKey, Said;
    forall p, q | 0 <= p < q < |humans| ensures key != PairKey(humans[p].id, humans[q].id) {
      assert humans[p] in humans && humans[q] in humans;
    }
    GridLeaves(start, humans, |humans|, radius, margin, key);
    SeenMeans(humans, |humans|, key);
    var met := Grid(start, humans, |humans|, radius, margin);
    assert met.pairs[..|met.pairs|] == met.pairs;
    SweepIsSound(ToSet(pairs), met, |met.pairs|, Unseen(Seen(humans, |humans|)));
  }

  // --- somebody leaves ----------------------------------------------------------------

  /** Every pair somebody was in ends when they leave, each said once, and no other pair. */
  lemma RemoveEnds(pairs: seq<string>, id: string)
    requires NoRepeats(pairs) && AllProper(pairs)
    ensures var next := Removed(pairs, id);
            && Sound(ToSet(pairs), next)
            && (forall k :: k in next.pairs <==> k in pairs && id != Ends(k).0 && id != Ends(k).1)
            && (forall k :: Said(next.deltas, k) == Changes(k in pairs, k in next.pairs))
  {
    assert Sound(ToSet(pairs), Graph(pairs, []));
    assert forall k :: Said([], k) == 0;
    hide Sound, Ends, Sweep, Said;
    assert pairs[..|pairs|] == pairs;
    SweepIsSound(ToSet(pairs), Graph(pairs, []), |pairs|, Left(id));
  }

  // --- hearing -------------------------------------------------------------------------

  /** You hear somebody exactly when the pair of you is tracked, so hearing is mutual;
      nobody is named twice and nobody hears themselves. */
  lemma HearersAreTracked(pairs: seq<string>, a: string, b: string)
    requires NoRepeats(pairs) && AllProper(pairs) && Spaceless(a) && Spaceless(b)
    ensures b in HearersOf(pairs, a) <==> a != b && PairKey(a, b) in pairs
    ensures b in HearersOf(pairs, a) <==> a in HearersOf(pairs, b)
    ensures NoRepeats(HearersOf(pairs, a))
  {
    HearsTracked(pairs, a, b);
    HearsTracked(pairs, b, a);
    KeyCuts(a, b);
    HearersOnce(pairs, a);
  }

  lemma {:induction false} HearsTracked(pairs: seq<string>, a: string, b: string)
    requires NoRepeats(pairs) && AllProper(pairs) && Spaceless(a) && Spaceless(b)
    ensures b in HearersOf(pairs, a) <==> a != b && PairKey(a, b) in pairs
  {
    hide Ends, PairKey;
    if pairs == [] {
    } else {
      var init, last := pairs[..|pairs| - 1], pairs[|pairs| - 1];
      assert Proper(last);
      HearsTracked(init, a, b);
      var (c, d) := Ends(last);
      KeyCuts(a, b);
      KeysApart(a, b, c, d);
    }
  }

  lemma {:induction false} HearersOnce(pairs: seq<string>, a: string)
    requires NoRepeats(pairs) && AllProper(pairs) && Spaceless(a)
    ensures NoRepeats(HearersOf(pairs, a))
  {
    hide Ends, PairKey;
    if pairs == [] {
    } else {
      var init, last := pairs[..|pairs| - 1], pairs[|pairs| - 1];
      assert Proper(last);
      HearersOnce(init, a);
      var (c, d) := Ends(last);
      HearsTracked(init, a, c);
      HearsTracked(init, a, d);
      KeyCuts(c, d);
      var rest := HearersOf(init, a);
      assert forall x :: (rest + [x])[..|rest|] == rest;
    }
  }

  // --- runs ------------------------------------------------------------------------------

  datatype Op = Update(players: seq<Player>, radius: real) | Remove(id: string)

  /** The pairs and all the changes said, from the first tick on. */
  function RunAll(ops: seq<Op>, margin: real): Graph {
    if ops == [] then Graph([], [])
    else
      var before := RunAll(ops[..|ops| - 1], margin);
      var next := match ops[|ops| - 1]
                  case Update(players, radius) => Updated(before.pairs, players, radius, margin)
                  case Remove(id) => Removed(before.pairs, id);
      Graph(next.pairs, before.deltas + next.deltas)
  }

  ghost predicate GoodOps(ops: seq<Op>) {
    forall i :: 0 <= i < |ops| && ops[i].Update? ==> DistinctIds(ops[i].players)
  }

  /** Through any run of ticks and departures, a peer that only heard the changes knows exactly
      the pairs tracked: it entered no pair twice and left none it was not in. */
  lemma {:induction false} RunReplays(ops: seq<Op>, margin: real)
    requires GoodOps(ops)
    ensures var g := RunAll(ops, margin);
            NoRepeats(g.pairs) && AllProper(g.pairs) && Replay({}, g.deltas) == Some(ToSet(g.pairs))
  {
    hide Updated, Removed, Proper;
    if ops == [] {
      assert ToSet([]) == {};
    } else {
      var init, last := ops[..|ops| - 1], ops[|ops| - 1];
      RunReplays(init, margin);
      var before := RunAll(init, margin);
      match last
      case Update(players, radius) =>
        UpdateIsSound(before.pairs, players, radius, margin);
        ReplayOn({}, before.deltas, Updated(before.pairs, players, radius, margin).deltas);
      case Remove(id) =>
        RemoveEnds(before.pairs, id);
        ReplayOn({}, before.deltas, Removed(before.pairs, id).deltas);
    }
  }

  ghost predicate HumanOf(players: seq<Player>, id: string) {
    exists p :: p in players && p.human && p.id == id
  }

  /** Only humans hear and are heard: whatever came before the last tick, and whoever has left
      since, both ends of every tracked pair were humans at that tick. */
  lemma {:induction false} OnlyHumansHear(ops: seq<Op>, players: seq<Player>, radius: real, margin: real,
                                          leaving: seq<Op>, key: string)
    requires GoodOps(ops) && DistinctIds(players) && forall i :: 0 <= i < |leaving| ==> leaving[i].Remove?
    requires key in RunAll(ops + [Update(players, radius)] + leaving, margin).pairs
    ensures HumanOf(players, Ends(key).0) && HumanOf(players, Ends(key).1)
    ensures forall i :: 0 <= i < |leaving| ==> leaving[i].id != Ends(key).0 && leaving[i].id != Ends(key).1
  {
    hide Updated, Removed, Ends, Proper;
    var ticked := ops + [Update(players, radius)];
    var run := ticked + leaving;
    RunReplays(run[..|run| - 1], margin);
    var before := RunAll(run[..|run| - 1], margin);
    if leaving == [] {
      assert run == ticked && run[..|run| - 1] == ops;
      TickIsHuman(before.pairs, players, radius, margin, key);
    } else {
      var n := |leaving| - 1;
      assert run[..|run| - 1] == ticked + leaving[..n] && run[|run| - 1] == leaving[n];
      RemoveEnds(before.pairs, leaving[n].id);
      OnlyHumansHear(ops, players, radius, margin, leaving[..n], key);
    }
  }

  lemma TickIsHuman(pairs: seq<string>, players: seq<Player>, radius: real, margin: real, key: string)
    requires NoRepeats(pairs) && AllProper(pairs) && DistinctIds(players)
    requires key in Updated(pairs, players, radius, margin).pairs
    ensures HumanOf(players, Ends(key).0) && HumanOf(players, Ends(key).1)
  {
    hide Updated, Ends, Proper, PairKey;
    if forall a, b :: a in players && b in players && a.human && b.human && a != b ==> key != PairKey(a.id, b.id) {
      OthersEnd(pairs, players, radius, margin, key);
    }
    var a, b :| a in players && b in players && a.human && b.human && a != b && key == PairKey(a.id, b.id);
    KeyCuts(a.id, b.id);
  }
}
