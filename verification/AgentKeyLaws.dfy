/** What provisioning promises: who gets a key, what the office knows of it, what
    is written, and that doing it again changes nothing. */
module AgentKeyLaws {
  import opened Text
  import opened Secrets
  import opened Identity
  import opened AgentKeys

  // --- slot names -------------------------------------------------------------

  predicate HasColon(s: string) {
    ':' in s
  }

  lemma SlotsOfOneServer(server: string, a: string, b: string)
    ensures AgentSlot(server, a) == AgentSlot(server, b) <==> a == b
  {
    var head := AGENT_KEY_SLOT + ":" + server + ":";
    assert AgentSlot(server, a)[|head|..] == a && AgentSlot(server, b)[|head|..] == b;
  }

  /** Two servers' agents never share a slot while their ids have no colon. */
  lemma SlotsApart(s: string, a: string, t: string, b: string)
    requires !HasColon(a) && !HasColon(b)
    ensures AgentSlot(s, a) == AgentSlot(t, b) <==> s == t && a == b
  {
    if AgentSlot(s, a) == AgentSlot(t, b) { EqualSlots(s, a, t, b); }
  }

  predicate EndsWithId(b: string, a: string) {
    |b| > |a| && b[|b| - |a|..] == a && b[|b| - |a| - 1] == ':'
  }

  lemma LongerTail(p: string, a: string, q: string, b: string)
    requires p + ":" + a == q + ":" + b && |a| < |b|
    ensures HasColon(b) && EndsWithId(b, a)
  {
    var x := p + ":" + a;
    assert x[|p|] == ':';
    assert b[|p| - |q| - 1] == (q + ":" + b)[|p|];
    assert x[|x| - |a|..] == a && (q + ":" + b)[|x| - |a|..] == b[|b| - |a|..];
  }

  /** Which ids keep all servers apart: exactly those of which none ends in a colon and another. */
  lemma ServersApartExactly(ids: set<string>)
    ensures (forall s, t, a, b :: a in ids && b in ids && AgentSlot(s, a) == AgentSlot(t, b) ==> s == t && a == b)
            <==> forall a, b :: a in ids && b in ids ==> !EndsWithId(b, a)
  {
    hide AgentSlot;
    if a, b :| a in ids && b in ids && EndsWithId(b, a) {
      var front := b[..|b| - |a| - 1];
      assert b == front + ":" + a;
      ColonsCollide("", front, a);
      assert "" + ":" + front != "";
    } else {
      forall s, t, a, b | a in ids && b in ids && AgentSlot(s, a) == AgentSlot(t, b) ensures s == t && a == b {
        EqualSlots(s, a, t, b);
      }
    }
  }

  lemma EqualSlots(s: string, a: string, t: string, b: string)
    requires AgentSlot(s, a) == AgentSlot(t, b)
    ensures EndsWithId(a, b) || EndsWithId(b, a) || (s == t && a == b)
  {
    var x, y, head := AgentSlot(s, a), AgentSlot(t, b), AGENT_KEY_SLOT + ":";
    if |a| < |b| {
      LongerTail(head + s, a, head + t, b);
    } else if |b| < |a| {
      LongerTail(head + t, b, head + s, a);
    } else {
      assert x[|x| - |a|..] == a && y[|y| - |b|..] == b;
      assert x[|head|..|x| - |a| - 1] == s && y[|head|..|y| - |b| - 1] == t;
    }
  }

  /** With a colon in an id they can: this id's slot is also another server's agent's. */
  lemma ColonsCollide(s: string, front: string, back: string)
    ensures AgentSlot(s, front + ":" + back) == AgentSlot(s + ":" + front, back)
  {
    var head := AGENT_KEY_SLOT + ":";
    assert AgentSlot(s, front + ":" + back) == head + s + ":" + front + ":" + back;
  }

  // --- one run ----------------------------------------------------------------

  ghost predicate DistinctIds(fleet: seq<FleetAgent>) {
    forall i, j :: 0 <= i < j < |fleet| ==> fleet[i].id != fleet[j].id
  }

  /** The fleet list says of each agent what the office has registered for it. */
  ghost predicate Agrees(fleet: seq<FleetAgent>, office: OfficeSide) {
    forall i :: 0 <= i < |fleet| ==> fleet[i].pubkey == Lookup(office.registered, fleet[i].id)
  }

  ghost predicate KeyOf(k: Keys, server: string, st: Progress, id: string, s: Secret) {
    var slot := AgentSlot(server, id);
    && slot in st.slots && k.decode(st.slots[slot]) == Some(s) && k.usable(s)
    && id in st.out.keys && st.out.keys[id] == k.nsec(s)
    && Lookup(st.office.registered, id) == Some(k.pubHex(s))
  }

  /** Why an agent went without: its slot cannot be read, or the office would not have its key. */
  ghost predicate Without(k: Keys, server: string, owner: Secret, slots: Slots, st: Progress, agent: FleetAgent) {
    var slot := AgentSlot(server, agent.id);
    && agent.id !in st.out.keys
    && SlotOf(st.slots, slot) == SlotOf(slots, slot)
    && Lookup(st.office.registered, agent.id) == agent.pubkey
    && if slot !in slots then k.usable(owner) && !st.office.accepts(agent.id)
       else match k.decode(slots[slot])
         case None => true
         case Some(s) => k.usable(owner) && !st.office.accepts(agent.id) && k.usable(s)
                         && k.pubHex(s) != k.pubHex(owner) && agent.pubkey != Some(k.pubHex(s))
  }

  /** An agent that has been dealt with: keyed, or skipped for a reason. */
  ghost predicate Settled(k: Keys, server: string, owner: Secret, slots: Slots, st: Progress, agent: FleetAgent) {
    if agent.id in st.skippedIds then Without(k, server, owner, slots, st, agent)
    else exists s :: KeyOf(k, server, st, agent.id, s)
  }

  /** Slots written so far: all the earlier ones untouched, and new ones only for agents with a key. */
  ghost predicate OnlyKeysAdded(server: string, slots: Slots, st: Progress, fleet: seq<FleetAgent>) {
    && (forall name :: name in slots ==> name in st.slots && st.slots[name] == slots[name])
    && (forall name :: name in st.slots && name !in slots ==>
          exists i :: 0 <= i < |fleet| && name == AgentSlot(server, fleet[i].id) && fleet[i].id in st.out.keys
              && fleet[i].id !in st.skippedIds)
    && (st.dirty <==> st.slots != slots)
  }

  ghost predicate OthersKept(office: OfficeSide, st: Progress, fleet: seq<FleetAgent>) {
    && st.office.accepts == office.accepts
    && (forall id :: (forall i :: 0 <= i < |fleet| ==> fleet[i].id != id) ==>
          id !in st.out.keys && id !in st.skippedIds && 
          Lookup(st.office.registered, id) == Lookup(office.registered, id))
  }

  /** A step that changed nobody's entries but this agent's, and its slot only by filling it. */
  ghost predicate TouchesOnly(server: string, st: Progress, next: Progress, agent: FleetAgent) {
    var slot := AgentSlot(server, agent.id);
    && (agent.id in next.skippedIds <==> agent.id !in next.out.keys)
    && next.office.accepts == st.office.accepts
    && next.skippedIds - {agent.id} == st.skippedIds
    && next.out.keys - {agent.id} == st.out.keys - {agent.id}
    && next.office.registered - {agent.id} == st.office.registered - {agent.id}
    && next.slots - {slot} == st.slots - {slot}
    && (next.slots == st.slots || (slot !in st.slots && agent.id in next.out.keys))
    && next.dirty == (st.dirty || next.slots != st.slots)
  }

  /** One agent's step settles that agent. */
  lemma StepSettles(k: Keys, server: string, owner: Secret, slots: Slots, st: Progress, agent: FleetAgent,
                    minted: Secret)
    requires Sound(k)
    requires Agent(k, server, owner, st, agent, minted).Ok?
    requires agent.id !in st.out.keys && agent.id !in st.skippedIds
    requires agent.pubkey == Lookup(st.office.registered, agent.id)
    requires SlotOf(st.slots, AgentSlot(server, agent.id)) == SlotOf(slots, AgentSlot(server, agent.id))
    ensures Settled(k, server, owner, slots, Agent(k, server, owner, st, agent, minted).value, agent)
  {
    hide AgentSlot;
    var slot := AgentSlot(server, agent.id);
    var next := Agent(k, server, owner, st, agent, minted).value;
    var held := if slot in st.slots then k.decode(st.slots[slot]) else Some(minted);
    if agent.id in next.out.keys {
      assert KeyOf(k, server, next, agent.id, held.value);
    }
  }

  /** And it touches nothing of anybody else's. */
  lemma StepTouchesOnly(k: Keys, server: string, owner: Secret, st: Progress, agent: FleetAgent, minted: Secret)
    requires Agent(k, server, owner, st, agent, minted).Ok?
    requires agent.id !in st.out.keys && agent.id !in st.skippedIds
    ensures TouchesOnly(server, st, Agent(k, server, owner, st, agent, minted).value, agent)
  {
    hide AgentSlot, Registered, WithKey, Skip;
    var slot := AgentSlot(server, agent.id);
    var held := if slot in st.slots then k.decode(st.slots[slot]) else Some(minted);
    SkipTouches(server, st, agent);
    if held.Some? {
      var known := Registered(k, owner, st, agent, k.pubHex(held.value));
      RegisteredTouches(k, owner, st, agent, k.pubHex(held.value));
      if known.Ok? && known.value.Some? { WithKeyTouches(k, server, st, known.value.value, agent, held.value); }
    }
    hide TouchesOnly;
  }

  lemma SkipTouches(server: string, st: Progress, agent: FleetAgent)
    requires agent.id !in st.out.keys && agent.id !in st.skippedIds
    ensures TouchesOnly(server, st, Skip(st, agent), agent)
  {
    hide AgentSlot;
  }

  lemma RegisteredTouches(k: Keys, owner: Secret, st: Progress, agent: FleetAgent, pubkey: string)
    ensures var r := Registered(k, owner, st, agent, pubkey);
            r.Ok? && r.value.Some? ==> OnlyOfficeTouched(st, r.value.value, agent)
  {
    var registered := st.office.registered;
    assert registered[agent.id := pubkey] - {agent.id} == registered - {agent.id};
  }

  /** A registration: the office's entry for this agent and the log of names, nothing else. */
  ghost predicate OnlyOfficeTouched(st: Progress, known: Progress, agent: FleetAgent) {
    && known.slots == st.slots && known.skippedIds == st.skippedIds && known.dirty == st.dirty
    && known.out.keys == st.out.keys && known.office.accepts == st.office.accepts
    && known.office.registered - {agent.id} == st.office.registered - {agent.id}
  }

  lemma WithKeyTouches(k: Keys, server: string, st: Progress, known: Progress, agent: FleetAgent, s: Secret)
    requires agent.id !in st.out.keys && agent.id !in st.skippedIds && OnlyOfficeTouched(st, known, agent)
    ensures var slot := AgentSlot(server, agent.id);
            TouchesOnly(server, st, WithKey(k, known, agent, slot, s, slot !in st.slots), agent)
  {
    hide AgentSlot;
    var slot := AgentSlot(server, agent.id);
    var next := WithKey(k, known, agent, slot, s, slot !in st.slots);
    assert next.out.keys - {agent.id} == st.out.keys - {agent.id};
    assert next.slots - {slot} == st.slots - {slot};
  }

  ghost predicate FleetDone(k: Keys, server: string, owner: Secret, slots: Slots, office: OfficeSide, st: Progress,
                            fleet: seq<FleetAgent>)
  {
    && (forall i :: 0 <= i < |fleet| ==> Settled(k, server, owner, slots, st, fleet[i]))
    && OnlyKeysAdded(server, slots, st, fleet)
    && OthersKept(office, st, fleet)
  }

  /** After a run that came to its end: every agent is keyed or skipped; the office has
      registered the public half of every key returned; earlier slots are as they were
      and a new one exists only for an agent with a key. */
  lemma {:induction false} FleetSettles(k: Keys, server: string, owner: Secret, slots: Slots, office: OfficeSide,
                                        fleet: seq<FleetAgent>, minted: seq<Secret>)
    requires Sound(k) && |minted| == |fleet| && DistinctIds(fleet) && Agrees(fleet, office)
    requires Fleet(k, server, owner, Start(slots, office), fleet, minted).1.None?
    ensures var st := Fleet(k, server, owner, Start(slots, office), fleet, minted).0;
            FleetDone(k, server, owner, slots, office, st, fleet)
  {
    if fleet == [] {
    } else {
      var last := |fleet| - 1;
      var rest, agent := fleet[..last], fleet[last];
      var st := Fleet(k, server, owner, Start(slots, office), rest, minted[..last]).0;
      FleetSettles(k, server, owner, slots, office, rest, minted[..last]);
      if AgentSlot(server, agent.id) in st.slots && AgentSlot(server, agent.id) !in slots {
        var i :| 0 <= i < last && AgentSlot(server, agent.id) == AgentSlot(server, rest[i].id);
        SlotsOfOneServer(server, agent.id, rest[i].id);
      }
      StepSettles(k, server, owner, slots, st, agent, minted[last]);
      StepTouchesOnly(k, server, owner, st, agent, minted[last]);
      var next := Agent(k, server, owner, st, agent, minted[last]).value;
      OneMoreSettled(k, server, owner, slots, office, st, next, fleet);
    }
  }

  lemma OneMoreSettled(k: Keys, server: string, owner: Secret, slots: Slots, office: OfficeSide, st: Progress,
                       next: Progress, fleet: seq<FleetAgent>)
    requires fleet != [] && DistinctIds(fleet)
    requires FleetDone(k, server, owner, slots, office, st, fleet[..|fleet| - 1])
    requires TouchesOnly(server, st, next, fleet[|fleet| - 1])
    requires Settled(k, server, owner, slots, next, fleet[|fleet| - 1])
    ensures FleetDone(k, server, owner, slots, office, next, fleet)
  {
    var last := |fleet| - 1;
    forall i | 0 <= i < last ensures Settled(k, server, owner, slots, next, fleet[i]) {
      assert fleet[..last][i] == fleet[i];
      StaysSettled(k, server, owner, slots, st, next, fleet[i], fleet[last]);
    }
    KeysAdded(server, slots, st, next, fleet);
    OthersStay(server, office, st, next, fleet);
  }

  lemma StaysSettled(k: Keys, server: string, owner: Secret, slots: Slots, st: Progress, next: Progress,
                     settled: FleetAgent, agent: FleetAgent)
    requires Settled(k, server, owner, slots, st, settled) && TouchesOnly(server, st, next, agent)
        && settled.id != agent.id
    ensures Settled(k, server, owner, slots, next, settled)
  {
    SlotsOfOneServer(server, settled.id, agent.id);
    OffKey(next.office.registered, st.office.registered, agent.id, settled.id);
    OffKey(next.out.keys, st.out.keys, agent.id, settled.id);
    OffKey(next.slots, st.slots, AgentSlot(server, agent.id), AgentSlot(server, settled.id));
    assert settled.id in next.skippedIds <==> settled.id in next.skippedIds - {agent.id};
    if settled.id !in st.skippedIds {
      var s :| KeyOf(k, server, st, settled.id, s);
      assert KeyOf(k, server, next, settled.id, s);
    }
  }

  lemma KeysAdded(server: string, slots: Slots, st: Progress, next: Progress, fleet: seq<FleetAgent>)
    requires fleet != [] && DistinctIds(fleet)
    requires OnlyKeysAdded(server, slots, st, fleet[..|fleet| - 1]) && TouchesOnly(server, st, next, fleet[|fleet| - 1])
    ensures OnlyKeysAdded(server, slots, next, fleet)
  {
    var last := |fleet| - 1;
    var slot := AgentSlot(server, fleet[last].id);
    forall name | name in next.slots && name !in slots
      ensures exists i ::
                && 0 <= i < |fleet| && name == AgentSlot(server, fleet[i].id)
                && fleet[i].id in next.out.keys && fleet[i].id !in next.skippedIds
    {
      if name == slot && slot !in st.slots {
        assert fleet[last].id in next.out.keys;
      } else {
        OffKeyIn(next.slots, st.slots, slot, name);
        var i :| 0 <= i < last && name == AgentSlot(server, fleet[..last][i].id) && fleet[..last][i].id in st.out.keys
                 && fleet[..last][i].id !in st.skippedIds;
        assert fleet[i].id != fleet[last].id;
        OffKey(next.out.keys, st.out.keys, fleet[last].id, fleet[i].id);
        assert fleet[i].id in next.skippedIds <==> fleet[i].id in next.skippedIds - {fleet[last].id};
      }
    }
    forall name | name in slots ensures name in next.slots && next.slots[name] == slots[name] {
      if name != slot { OffKey(next.slots, st.slots, slot, name); }
    }
    if next.slots != st.slots { assert slot in next.slots && slot !in slots by { SlotAppears(st, next, slot); } }
  }

  lemma SlotAppears(st: Progress, next: Progress, slot: string)
    requires next.slots - {slot} == st.slots - {slot} && slot !in st.slots && next.slots != st.slots
    ensures slot in next.slots
  {
    assert st.slots - {slot} == st.slots;
    assert slot !in next.slots ==> next.slots - {slot} == next.slots;
  }

  lemma OffKeyIn(m: map<string, string>, n: map<string, string>, key: string, name: string)
    requires m - {key} == n - {key} && name in m && (name == key ==> key in n)
    ensures name in n
  {
    if name != key { OffKey(m, n, key, name); }
  }

  lemma OthersStay(server: string, office: OfficeSide, st: Progress, next: Progress, fleet: seq<FleetAgent>)
    requires fleet != []
    requires OthersKept(office, st, fleet[..|fleet| - 1]) && TouchesOnly(server, st, next, fleet[|fleet| - 1])
    ensures OthersKept(office, next, fleet)
  {
    var agent := fleet[|fleet| - 1];
    var rest := fleet[..|fleet| - 1];
    forall id | forall i :: 0 <= i < |fleet| ==> fleet[i].id != id
      ensures id !in next.out.keys && id !in next.skippedIds
      ensures Lookup(next.office.registered, id) == Lookup(office.registered, id)
    {
      assert forall i :: 0 <= i < |rest| ==> rest[i].id != id;
      OffKey(next.office.registered, st.office.registered, agent.id, id);
      OffKey(next.out.keys, st.out.keys, agent.id, id);
      assert id in next.skippedIds <==> id in next.skippedIds - {agent.id};
    }
  }

  lemma OffKey(m: map<string, string>, n: map<string, string>, key: string, other: string)
    requires m - {key} == n - {key} && other != key
    ensures Lookup(m, other) == Lookup(n, other)
  {
    assert other in m <==> other in m - {key};
    assert other in n <==> other in n - {key};
    if other in m { assert (m - {key})[other] == (n - {key})[other]; }
  }

  // --- a second run -----------------------------------------------------------

  /** The same agents, as the office lists them after the first run. */
  ghost predicate ListedAgain(again: seq<FleetAgent>, fleet: seq<FleetAgent>, office: OfficeSide) {
    && |again| == |fleet|
    && (forall i :: 0 <= i < |fleet| ==> again[i].id == fleet[i].id)
    && Agrees(again, office)
  }

  /** What a generator of new keys is trusted with: not the owner's key, and not one the office
      already has for that agent. */
  ghost predicate NewToEverybody(k: Keys, owner: Secret, again: seq<FleetAgent>, minted: seq<Secret>) {
    && |minted| == |again|
    && forall i :: 0 <= i < |again| ==>
         k.usable(minted[i]) && k.pubHex(minted[i]) != k.pubHex(owner) && again[i].pubkey != Some(k.pubHex(minted[i]))
  }

  ghost predicate Listed(fleet: seq<FleetAgent>, id: string) {
    exists i :: 0 <= i < |fleet| && fleet[i].id == id
  }

  ghost function KeysOf(st: Progress, fleet: seq<FleetAgent>): map<string, string> {
    map id | id in st.out.keys && Listed(fleet, id) :: st.out.keys[id]
  }

  ghost predicate Quiet(st: Progress, again: Progress, fleet: seq<FleetAgent>) {
    && again.slots == st.slots && again.office == st.office && !again.dirty
    && again.out.registered == [] && again.out.keys == KeysOf(st, fleet)
  }

  /** An agent settled by the first run: the second gives it the same key, or skips it again. */
  lemma AgentAgain(k: Keys, server: string, owner: Secret, slots: Slots, st: Progress, now: Progress, agent: FleetAgent,
                   again: FleetAgent, minted: Secret)
    requires Settled(k, server, owner, slots, st, agent) && again.id == agent.id
    requires again.pubkey == Lookup(st.office.registered, agent.id)
    requires k.usable(minted) && k.pubHex(minted) != k.pubHex(owner) && again.pubkey != Some(k.pubHex(minted))
    requires now.slots == st.slots && now.office == st.office
    ensures var r := Agent(k, server, owner, now, again, minted);
            && r.Ok?
            && r.value.slots == now.slots && r.value.office == now.office && r.value.dirty == now.dirty
            && r.value.out.registered == now.out.registered
            && r.value.out.keys == if agent.id in st.out.keys then now.out.keys[agent.id := st.out.keys[agent.id]]
                else now.out.keys
  {
    if agent.id !in st.skippedIds {
      var s :| KeyOf(k, server, st, agent.id, s);
    }
  }

  lemma {:induction false} QuietSoFar(k: Keys, server: string, owner: Secret, slots: Slots, office: OfficeSide,
                                      st: Progress, fleet: seq<FleetAgent>, again: seq<FleetAgent>, minted: seq<Secret>,
                                      n: nat)
    requires FleetDone(k, server, owner, slots, office, st, fleet) && DistinctIds(fleet)
    requires ListedAgain(again, fleet, st.office) && NewToEverybody(k, owner, again, minted) && n <= |fleet|
    ensures var r := Fleet(k, server, owner, Start(st.slots, st.office), again[..n], minted[..n]);
            r.1.None? && Quiet(st, r.0, fleet[..n])
  {
    if n == 0 {
    } else {
      QuietSoFar(k, server, owner, slots, office, st, fleet, again, minted, n - 1);
      assert again[..n][..n - 1] == again[..n - 1] && minted[..n][..n - 1] == minted[..n - 1];
      var before := Fleet(k, server, owner, Start(st.slots, st.office), again[..n - 1], minted[..n - 1]).0;
      var agent := fleet[n - 1];
      AgentAgain(k, server, owner, slots, st, before, agent, again[n - 1], minted[n - 1]);
      OneMoreKey(st, fleet, n);
    }
  }

  lemma OneMoreKey(st: Progress, fleet: seq<FleetAgent>, n: nat)
    requires 0 < n <= |fleet|
    ensures var id := fleet[n - 1].id;
            KeysOf(st, fleet[..n]) ==
            if id in st.out.keys then KeysOf(st, fleet[..n - 1])[id := st.out.keys[id]] else KeysOf(st, fleet[..n - 1])
  {
    assert fleet[..n] == fleet[..n - 1] + [fleet[n - 1]];
    forall id ensures Listed(fleet[..n], id) <==> Listed(fleet[..n - 1], id) || id == fleet[n - 1].id {
      var all, init := fleet[..n], fleet[..n - 1];
      if id == fleet[n - 1].id { assert all[n - 1].id == id; }
      if Listed(init, id) {
        var i :| 0 <= i < |init| && init[i].id == id;
        assert all[i].id == id;
      }
      if Listed(all, id) && id != fleet[n - 1].id {
        var i :| 0 <= i < |all| && all[i].id == id;
        assert init[i].id == id;
      }
    }
  }

  /** Provisioning again against the same office registers nothing, writes nothing,
      and returns the same keys. */
  lemma SecondRunIsQuiet(k: Keys, server: string, owner: Secret, slots: Slots, office: OfficeSide, st: Progress,
                         fleet: seq<FleetAgent>, again: seq<FleetAgent>, minted: seq<Secret>)
    requires FleetDone(k, server, owner, slots, office, st, fleet) && DistinctIds(fleet)
    requires ListedAgain(again, fleet, st.office) && NewToEverybody(k, owner, again, minted)
    ensures var (after, failed) := Fleet(k, server, owner, Start(st.slots, st.office), again, minted);
            && failed.None? && after.slots == st.slots && after.office == st.office && !after.dirty
            && after.out.registered == [] && after.out.keys == st.out.keys
  {
    QuietSoFar(k, server, owner, slots, office, st, fleet, again, minted, |fleet|);
    assert again[..|fleet|] == again && minted[..|fleet|] == minted && fleet[..|fleet|] == fleet;
    forall id | id in st.out.keys ensures Listed(fleet, id) {
    }
    assert KeysOf(st, fleet) == st.out.keys;
  }

  /** The same through the store: with a persistent owner and a keychain that works,
      what the first run wrote is what the second run reads. */
  lemma ProvisionTwice(w: World, backend: Backend, k: Keys, server: string, office: OfficeSide, fleet: seq<FleetAgent>,
                       owner: HeldKey, minted: seq<Secret>, again: seq<FleetAgent>, minted': seq<Secret>)
    requires Sound(k) && w.script == [] && Load(w, backend).1.Ok? && !owner.ephemeral
    requires |minted| == |fleet| && DistinctIds(fleet) && Agrees(fleet, office)
    requires Provision(w, backend, k, server, office, Ok(fleet), owner, minted).2.Ok?
    requires ListedAgain(again, fleet, Provision(w, backend, k, server, office, Ok(fleet), owner, minted).1)
    requires NewToEverybody(k, owner.secret, again, minted')
    ensures var (w1, office1, first) := Provision(w, backend, k, server, office, Ok(fleet), owner, minted);
            var (w2, office2, second) := Provision(w1, backend, k, server, office1, Ok(again), owner, minted');
            && w2 == w1 && office2 == office1 && second.Ok?
            && second.value.keys == first.value.keys && second.value.registered == []
  {
    var slots := Load(w, backend).1.value;
    var st := Fleet(k, server, owner.secret, Start(slots, office), fleet, minted).0;
    FleetSettles(k, server, owner.secret, slots, office, fleet, minted);
    var (w1, office1, first) := Provision(w, backend, k, server, office, Ok(fleet), owner, minted);
    WrittenIsRead(w, backend, slots, st, k.npub(owner.secret));
    assert Load(w1, backend) == (w1, Ok(st.slots));
    hide Load, Store, Fleet;
    SecondRunIsQuiet(k, server, owner.secret, slots, office, st, fleet, again, minted');
  }

  lemma WrittenIsRead(w: World, backend: Backend, slots: Slots, st: Progress, npub: string)
    requires w.script == [] && Load(w, backend) == (w, Ok(slots)) && (st.dirty <==> st.slots != slots)
    ensures var (w1, stored) := Store(w, backend, st.slots, npub);
            stored.Ok? && Load(w1, backend) == (w1, Ok(st.slots))
    ensures !st.dirty ==> Load(w, backend) == (w, Ok(st.slots))
  {
  }
}
