/** What becomes of each agent of a fleet, decided from what was there before the run, and exactly when a
    run of provisioning succeeds. */
module FleetLaws {
  import opened Text
  import opened Secrets
  import opened Identity
  import opened AgentKeys
  import opened AgentKeyLaws
  import opened KeyStoreLaws
  import opened OperationLaws
  import opened MarkerLaws

  /** Ends the run, goes without a key, or has this one: known to the office already or told to it now,
      held already or new. */
  datatype Decision = EndsIt | GoesWithout | Has(secret: Secret, told: bool, isNew: bool)

  /** One agent's, by what its slot held. */
  function Decided(k: Keys, owner: Secret, accepts: string -> bool, held: Option<string>, agent: FleetAgent,
                   minted: Secret): Decision
  {
    var secret := if held.Some? then k.decode(held.value) else Some(minted);
    if secret.None? then GoesWithout
    else
      var s, listed := secret.value, agent.pubkey == Some(k.pubHex(secret.value));
      if !k.usable(s) || (!listed && (!k.usable(owner) || k.pubHex(owner) == k.pubHex(s))) then EndsIt
      else if listed || accepts(agent.id) then Has(s, !listed, held.None?)
      else GoesWithout
  }

  /** Everybody's, by the slots as they were before the run. */
  function Decisions(k: Keys, server: string, owner: Secret, slots: Slots, office: OfficeSide,
                     fleet: seq<FleetAgent>, minted: seq<Secret>): (ds: seq<Decision>)
    requires |minted| == |fleet|
    ensures |ds| == |fleet|
  {
    seq(|fleet|, i requires 0 <= i < |fleet| =>
      Decided(k, owner, office.accepts, SlotOf(slots, AgentSlot(server, fleet[i].id)), fleet[i], minted[i]))
  }

  /** The names of those told to the office, or of those going without, in the order of the fleet. */
  function NamesOf(fleet: seq<FleetAgent>, ds: seq<Decision>, told: bool): seq<string>
    requires |ds| == |fleet|
  {
    if fleet == [] then []
    else
      var last := |fleet| - 1;
      NamesOf(fleet[..last], ds[..last], told)
      + if (if told then ds[last].Has? && ds[last].told else ds[last].GoesWithout?) then [fleet[last].name] else []
  }

  /** What one decision adds to what has been produced. */
  ghost predicate Adds(k: Keys, slot: string, st: Progress, next: Progress, agent: FleetAgent, d: Decision) {
    && next.office.accepts == st.office.accepts
    && next.out.skipped == st.out.skipped + (if d.GoesWithout? then [agent.name] else [])
    && next.out.registered == st.out.registered + (if d.Has? && d.told then [agent.name] else [])
    && next.out.keys == (if d.Has? then st.out.keys[agent.id := k.nsec(d.secret)] else st.out.keys)
    && next.slots == (if d.Has? && d.isNew then st.slots[slot := k.nsec(d.secret)] else st.slots)
    && next.dirty == (st.dirty || (d.Has? && d.isNew))
  }

  lemma AgentIsDecided(k: Keys, server: string, owner: Secret, st: Progress, agent: FleetAgent, minted: Secret)
    ensures var slot := AgentSlot(server, agent.id);
            var d := Decided(k, owner, st.office.accepts, SlotOf(st.slots, slot), agent, minted);
            var r := Agent(k, server, owner, st, agent, minted);
            && (r.Ok? <==> !d.EndsIt?)
            && (r.Ok? ==> Adds(k, slot, st, r.value, agent, d))
  {
    hide AgentSlot;
  }

  /** The run so far, against the decisions. */
  ghost predicate AsDecided(k: Keys, server: string, slots: Slots, office: OfficeSide, st: Progress,
                            fleet: seq<FleetAgent>, ds: seq<Decision>)
    requires |ds| == |fleet|
  {
    && st.office.accepts == office.accepts && (st.dirty <==> AnyNew(ds))
    && st.out.skipped == NamesOf(fleet, ds, false) && st.out.registered == NamesOf(fleet, ds, true)
    && (forall i :: 0 <= i < |fleet| ==> KeyAsDecided(k, server, slots, st, fleet[i], ds[i]))
    && OthersAsBefore(server, slots, st, fleet)
  }

  ghost predicate OthersAsBefore(server: string, slots: Slots, st: Progress, fleet: seq<FleetAgent>) {
    forall id :: (forall i :: 0 <= i < |fleet| ==> fleet[i].id != id) ==>
      id !in st.out.keys && SlotOf(st.slots, AgentSlot(server, id)) == SlotOf(slots, AgentSlot(server, id))
  }

  /** Somebody has a key that was not held before. */
  predicate AnyNew(ds: seq<Decision>) {
    exists i :: 0 <= i < |ds| && ds[i].Has? && ds[i].isNew
  }

  ghost predicate KeyAsDecided(k: Keys, server: string, slots: Slots, st: Progress, agent: FleetAgent, d: Decision) {
    var slot := AgentSlot(server, agent.id);
    && Lookup(st.out.keys, agent.id) == (if d.Has? then Some(k.nsec(d.secret)) else None)
    && SlotOf(st.slots, slot) == (if d.Has? && d.isNew then Some(k.nsec(d.secret)) else SlotOf(slots, slot))
  }

  /** Every agent is dealt with by itself, from what was there before the run: the run comes to its end
      exactly if nobody's key ends it, and then the keys returned, the slots filled, and the names
      reported, in the order of the fleet, are those decided. */
  lemma {:induction false} FleetIsDecided(k: Keys, server: string, owner: Secret, slots: Slots, office: OfficeSide,
                                          fleet: seq<FleetAgent>, minted: seq<Secret>)
    requires |minted| == |fleet| && DistinctIds(fleet)
    ensures var ds := Decisions(k, server, owner, slots, office, fleet, minted);
            var (st, failed) := Fleet(k, server, owner, Start(slots, office), fleet, minted);
            && (failed.None? <==> EndsIt !in ds)
            && (failed.None? ==> AsDecided(k, server, slots, office, st, fleet, ds))
  {
    hide AsDecided, Agent, Decided, AgentSlot;
    var ds := Decisions(k, server, owner, slots, office, fleet, minted);
    if fleet == [] {
      NobodyDecided(k, server, slots, office);
    } else {
      var last := |fleet| - 1;
      FleetIsDecided(k, server, owner, slots, office, fleet[..last], minted[..last]);
      assert Decisions(k, server, owner, slots, office, fleet[..last], minted[..last]) == ds[..last];
      assert ds == ds[..last] + [ds[last]];
      var (st, failed) := Fleet(k, server, owner, Start(slots, office), fleet[..last], minted[..last]);
      if failed.None? {
        SlotIsStill(k, server, slots, office, st, fleet, ds[..last]);
        AgentIsDecided(k, server, owner, st, fleet[last], minted[last]);
        var r := Agent(k, server, owner, st, fleet[last], minted[last]);
        if r.Ok? { OneMoreDecided(k, server, slots, office, st, r.value, fleet, ds); }
      }
    }
  }

  lemma NobodyDecided(k: Keys, server: string, slots: Slots, office: OfficeSide)
    ensures AsDecided(k, server, slots, office, Start(slots, office), [], [])
  {
  }

  lemma SlotIsStill(k: Keys, server: string, slots: Slots, office: OfficeSide, st: Progress, fleet: seq<FleetAgent>,
                    ds: seq<Decision>)
    requires fleet != [] && |ds| == |fleet| - 1 && DistinctIds(fleet)
    requires AsDecided(k, server, slots, office, st, fleet[..|fleet| - 1], ds)
    ensures var id := fleet[|fleet| - 1].id;
            && st.office.accepts == office.accepts && id !in st.out.keys
            && SlotOf(st.slots, AgentSlot(server, id)) == SlotOf(slots, AgentSlot(server, id))
  {
  }

  lemma OneMoreDecided(k: Keys, server: string, slots: Slots, office: OfficeSide, st: Progress, next: Progress,
                       fleet: seq<FleetAgent>, ds: seq<Decision>)
    requires fleet != [] && |ds| == |fleet| && DistinctIds(fleet)
    requires AsDecided(k, server, slots, office, st, fleet[..|fleet| - 1], ds[..|fleet| - 1])
    requires var last := |fleet| - 1;
             Adds(k, AgentSlot(server, fleet[last].id), st, next, fleet[last], ds[last])
    ensures AsDecided(k, server, slots, office, next, fleet, ds)
  {
    hide AgentSlot, KeyAsDecided, AnyNew;
    var last := |fleet| - 1;
    var agent, d, init := fleet[last], ds[last], fleet[..last];
    SlotIsStill(k, server, slots, office, st, fleet, ds[..last]);
    OneMoreName(fleet, ds, false);
    OneMoreName(fleet, ds, true);
    AnyNewSoFar(ds);
    AddsNames(k, AgentSlot(server, agent.id), st, next, agent, d);
    AddsHere(k, server, slots, st, next, agent, d);
    OneMoreBefore(k, server, slots, st, next, fleet, d);
    hide Adds, NamesOf, OthersAsBefore;
    forall i | 0 <= i < last ensures KeyAsDecided(k, server, slots, next, fleet[i], ds[i]) {
      assert KeyAsDecided(k, server, slots, st, init[i], ds[..last][i]);
      AddsElsewhere(k, server, slots, st, next, agent, d, fleet[i].id);
      StillAsDecided(k, server, slots, st, next, fleet[i], ds[i]);
    }
  }

  lemma OneMoreBefore(k: Keys, server: string, slots: Slots, st: Progress, next: Progress, fleet: seq<FleetAgent>,
                      d: Decision)
    requires fleet != [] && OthersAsBefore(server, slots, st, fleet[..|fleet| - 1])
    requires Adds(k, AgentSlot(server, fleet[|fleet| - 1].id), st, next, fleet[|fleet| - 1], d)
    ensures OthersAsBefore(server, slots, next, fleet)
  {
    hide AgentSlot, Adds;
    var init, agent := fleet[..|fleet| - 1], fleet[|fleet| - 1];
    forall id | forall i :: 0 <= i < |fleet| ==> fleet[i].id != id
      ensures id !in next.out.keys
      ensures SlotOf(next.slots, AgentSlot(server, id)) == SlotOf(slots, AgentSlot(server, id))
    {
      assert forall i :: 0 <= i < |init| ==> init[i].id != id;
      AddsElsewhere(k, server, slots, st, next, agent, d, id);
    }
  }

  lemma OneMoreName(fleet: seq<FleetAgent>, ds: seq<Decision>, told: bool)
    requires fleet != [] && |ds| == |fleet|
    ensures var last := |fleet| - 1;
            NamesOf(fleet, ds, told) ==
            NamesOf(fleet[..last], ds[..last], told)
            + if (if told then ds[last].Has? && ds[last].told else ds[last].GoesWithout?) then [fleet[last].name]
              else []
  {
  }

  lemma AddsNames(k: Keys, slot: string, st: Progress, next: Progress, agent: FleetAgent, d: Decision)
    requires Adds(k, slot, st, next, agent, d)
    ensures next.office.accepts == st.office.accepts && (next.dirty <==> st.dirty || (d.Has? && d.isNew))
    ensures next.out.skipped == st.out.skipped + (if d.GoesWithout? then [agent.name] else [])
    ensures next.out.registered == st.out.registered + (if d.Has? && d.told then [agent.name] else [])
  {
  }

  lemma AddsHere(k: Keys, server: string, slots: Slots, st: Progress, next: Progress, agent: FleetAgent, d: Decision)
    requires Adds(k, AgentSlot(server, agent.id), st, next, agent, d) && agent.id !in st.out.keys
    requires SlotOf(st.slots, AgentSlot(server, agent.id)) == SlotOf(slots, AgentSlot(server, agent.id))
    ensures KeyAsDecided(k, server, slots, next, agent, d)
  {
    hide AgentSlot;
  }

  lemma AddsElsewhere(k: Keys, server: string, slots: Slots, st: Progress, next: Progress, agent: FleetAgent,
                      d: Decision, id: string)
    requires Adds(k, AgentSlot(server, agent.id), st, next, agent, d) && id != agent.id
    ensures Lookup(next.out.keys, id) == Lookup(st.out.keys, id)
    ensures SlotOf(next.slots, AgentSlot(server, id)) == SlotOf(st.slots, AgentSlot(server, id))
  {
    SlotsOfOneServer(server, id, agent.id);
    hide AgentSlot;
  }

  lemma StillAsDecided(k: Keys, server: string, slots: Slots, st: Progress, next: Progress, agent: FleetAgent,
                       d: Decision)
    requires KeyAsDecided(k, server, slots, st, agent, d)
    requires Lookup(next.out.keys, agent.id) == Lookup(st.out.keys, agent.id)
    requires SlotOf(next.slots, AgentSlot(server, agent.id)) == SlotOf(st.slots, AgentSlot(server, agent.id))
    ensures KeyAsDecided(k, server, slots, next, agent, d)
  {
    hide AgentSlot;
  }

  lemma AnyNewSoFar(ds: seq<Decision>)
    requires ds != []
    ensures var last := |ds| - 1; AnyNew(ds) <==> AnyNew(ds[..last]) || (ds[last].Has? && ds[last].isNew)
  {
    var last := |ds| - 1;
    if i :| 0 <= i < |ds| && ds[i].Has? && ds[i].isNew {
      if i < last { assert ds[..last][i].Has?; }
    }
    if i :| 0 <= i < last && ds[..last][i].Has? && ds[..last][i].isNew { assert ds[i].Has?; }
  }

  /** A run through the store succeeds exactly if the store could be read, nobody's key ends the run, and
      there is nothing to write down, or the owner can sign and none of the three steps of the write is
      refused. Nothing is written down for a key from the environment. */
  lemma ProvisionsExactly(w: World, backend: Backend, k: Keys, server: string, office: OfficeSide,
                          fleet: seq<FleetAgent>, owner: HeldKey, minted: seq<Secret>)
    requires |minted| == |fleet| && DistinctIds(fleet) && Honest(w.script)
    ensures var (w', after, r) := Provision(w, backend, k, server, office, Ok(fleet), owner, minted);
            var ds := Decisions(k, server, owner.secret, SlotsIn(w), office, fleet, minted);
            && (r.Ok? <==>
                  && Load(w, backend).1.Ok? && EndsIt !in ds
                  && (owner.ephemeral || !AnyNew(ds) || (k.usable(owner.secret) && !RefusedInStore(w.script))))
            && (owner.ephemeral || !AnyNew(ds) ==> w'.entry == w.entry && w'.marker == w.marker)
            && (r.Ok? ==> forall i :: 0 <= i < |fleet| ==>
                  Lookup(r.value.keys, fleet[i].id) == if ds[i].Has? then Some(k.nsec(ds[i].secret)) else None)
            && (r.Ok? ==>
                  r.value.skipped == NamesOf(fleet, ds, false) && r.value.registered == NamesOf(fleet, ds, true))
  {
    hide Load, Store, Fleet, Decisions, NamesOf, AnyNew;
    LoadReads(w, backend);
    LoadTakesOne(w, backend);
    var (w1, r) := Load(w, backend);
    assert forall i: nat :: FateOf(w1.script, i) == FateOf(w.script, i + 1);
    if r.Ok? {
      FleetSaid(k, server, owner.secret, r.value, office, fleet, minted);
      var st := Fleet(k, server, owner.secret, Start(r.value, office), fleet, minted).0;
      StoreExactly(w1, backend, st.slots, k.npub(owner.secret));
    }
  }

  /** A store that cannot be read ends it before the office is asked anything, and an office that does not
      answer before anything is written. */
  lemma NothingWithoutStoreAndOffice(w: World, backend: Backend, k: Keys, server: string, office: OfficeSide,
                                     answer: Outcome<seq<FleetAgent>>, owner: HeldKey, minted: seq<Secret>)
    requires answer.Ok? ==> |minted| == |answer.value|
    requires !Load(w, backend).1.Ok? || !answer.Ok?
    ensures var (w', after, r) := Provision(w, backend, k, server, office, answer, owner, minted);
            !r.Ok? && after == office && w'.entry == w.entry && w'.marker == w.marker && w'.confirmed == w.confirmed
  {
    LoadReads(w, backend);
    hide Load, Fleet;
  }

  lemma FleetSaid(k: Keys, server: string, owner: Secret, slots: Slots, office: OfficeSide, fleet: seq<FleetAgent>,
                  minted: seq<Secret>)
    requires |minted| == |fleet| && DistinctIds(fleet)
    ensures var ds := Decisions(k, server, owner, slots, office, fleet, minted);
            var (st, failed) := Fleet(k, server, owner, Start(slots, office), fleet, minted);
            && (failed.None? <==> EndsIt !in ds)
            && (failed.None? ==>
                  && (st.dirty <==> AnyNew(ds))
                  && st.out.skipped == NamesOf(fleet, ds, false) && st.out.registered == NamesOf(fleet, ds, true)
                  && forall i :: 0 <= i < |fleet| ==>
                       Lookup(st.out.keys, fleet[i].id) == if ds[i].Has? then Some(k.nsec(ds[i].secret)) else None)
  {
    FleetIsDecided(k, server, owner, slots, office, fleet, minted);
    hide Fleet, Decisions, NamesOf, AnyNew, AgentSlot;
  }
}
