/** A key for every agent this machine runs: reused when held, minted when not,
    registered with the office when the office does not know it, and kept only
    once the office has accepted it.
 */
module AgentKeys {
  import opened Text
  import opened Secrets
  import opened Identity

  const AGENT_KEY_SLOT := "agent-key"

  datatype FleetAgent = FleetAgent(id: string, name: string, pubkey: Option<string>)

  /** The office, as much as provisioning sees: whose registration it accepts, and what it has registered. */
  datatype OfficeSide = OfficeSide(accepts: string -> bool, registered: map<string, string>)

  datatype Provisioned = Provisioned(keys: map<string, string>, registered: seq<string>, skipped: seq<string>)

  /** Provisioning under way: the slots to be written, the office, and what has been produced. */
  datatype Progress = Progress(slots: Slots, office: OfficeSide, out: Provisioned, skippedIds: set<string>, dirty: bool)

  function AgentSlot(server: string, id: string): string {
    AGENT_KEY_SLOT + ":" + server + ":" + id
  }

  function Lookup(m: map<string, string>, id: string): Option<string> {
    if id in m then Some(m[id]) else None
  }

  function Skip(st: Progress, agent: FleetAgent): Progress {
    st.(out := st.out.(skipped := st.out.skipped + [agent.name]), skippedIds := st.skippedIds + {agent.id})
  }

  /** Make sure the office knows this key: nothing to do, accepted, or refused; a key that vouches
      for itself is an error. */
  function Registered(k: Keys, owner: Secret, st: Progress, agent: FleetAgent, pubkey: string)
    : Outcome<Option<Progress>>
  {
    if agent.pubkey == Some(pubkey) then Ok(Some(st))
    else if !k.usable(owner) || k.pubHex(owner) == pubkey then Err(BadKey)
    else if !st.office.accepts(agent.id) then Ok(None)
    else Ok(Some(st.(office := st.office.(registered := st.office.registered[agent.id := pubkey]),
                     out := st.out.(registered := st.out.registered + [agent.name]))))
  }

  function WithKey(k: Keys, st: Progress, agent: FleetAgent, slot: string, secret: Secret, isFresh: bool): Progress {
    var keyed := st.(out := st.out.(keys := st.out.keys[agent.id := k.nsec(secret)]));
    if isFresh then keyed.(slots := keyed.slots[slot := k.nsec(secret)], dirty := true) else keyed
  }

  /** One agent of the fleet. */
  function Agent(k: Keys, server: string, owner: Secret, st: Progress, agent: FleetAgent, minted: Secret)
    : Outcome<Progress>
  {
    var slot := AgentSlot(server, agent.id);
    var held := if slot in st.slots then k.decode(st.slots[slot]) else Some(minted);
    if held.None? then Ok(Skip(st, agent))
    else if !k.usable(held.value) then Err(BadKey)
    else
      match Registered(k, owner, st, agent, k.pubHex(held.value))
      case Err(e) => Err(e)
      case Crashed => Crashed
      case Ok(None) => Ok(Skip(st, agent))
      case Ok(Some(known)) => Ok(WithKey(k, known, agent, slot, held.value, slot !in st.slots))
  }

  /** The office side of a step that failed is the one before it: the failing paths register nothing. */
  function Fleet(k: Keys, server: string, owner: Secret, st: Progress, fleet: seq<FleetAgent>, minted: seq<Secret>)
    : (Progress, Option<Error>)
    requires |minted| == |fleet|
  {
    if fleet == [] then (st, None)
    else
      var last := |fleet| - 1;
      var (before, failed) := Fleet(k, server, owner, st, fleet[..last], minted[..last]);
      if failed.Some? then (before, failed)
      else
        match Agent(k, server, owner, before, fleet[last], minted[last])
        case Ok(next) => (next, None)
        case Err(e) => (before, Some(e))
        case Crashed => (before, Some(BadKey))
  }

  function Start(slots: Slots, office: OfficeSide): Progress {
    Progress(slots, office, Provisioned(map[], [], []), {}, false)
  }

  function Provision(w: World, backend: Backend, k: Keys, server: string, office: OfficeSide,
                     answer: Outcome<seq<FleetAgent>>, owner: HeldKey, minted: seq<Secret>)
    : (World, OfficeSide, Outcome<Provisioned>)
    requires answer.Ok? ==> |minted| == |answer.value|
  {
    var (w1, r) := Load(w, backend);
    match r
    case Err(e) => (w1, office, Err(e))
    case Crashed => (w1, office, Crashed)
    case Ok(slots) =>
      match answer
      case Err(e) => (w1, office, Err(e))
      case Crashed => (w1, office, Crashed)
      case Ok(fleet) =>
        var (st, failed) := Fleet(k, server, owner.secret, Start(slots, office), fleet, minted);
        if failed.Some? then (w1, st.office, Err(failed.value))
        else if st.dirty && !owner.ephemeral then
          if !k.usable(owner.secret) then (w1, st.office, Err(BadKey))
          else
            var (w2, stored) := Store(w1, backend, st.slots, k.npub(owner.secret));
            (w2, st.office, Then((w2, stored), st.out).1)
        else (w1, st.office, Ok(st.out))
  }

  // --- the same, in place -----------------------------------------------------

  method ProvisionIn(store: SecretStore, k: Keys, server: string, office: OfficeSide, answer: Outcome<seq<FleetAgent>>,
                     owner: HeldKey, minted: seq<Secret>)
    returns (after: OfficeSide, r: Outcome<Provisioned>)
    requires answer.Ok? ==> |minted| == |answer.value|
    modifies store
    ensures (store.Here(), after, r)
         == Provision(old(store.Here()), store.backend, k, server, office, answer, owner, minted)
  {
    after := office;
    // slots that cannot be read end it here, with the office not yet asked anything
    var loaded := store.LoadSlots();
    if !loaded.Ok? {
      return after, if loaded.Err? then Err(loaded.error) else Crashed;
    }
    if !answer.Ok? {
      return after, if answer.Err? then Err(answer.error) else Crashed;
    }
    var st, failed := ProvisionFleet(k, server, owner.secret, Start(loaded.value, office), answer.value, minted);
    after := st.office;
    if failed.Some? {
      return after, Err(failed.value);
    }
    if st.dirty && !owner.ephemeral {
      if !k.usable(owner.secret) {
        return after, Err(BadKey);
      }
      var stored := store.StoreSlots(st.slots, k.npub(owner.secret));
      return after, Then((store.Here(), stored), st.out).1;
    }
    r := Ok(st.out);
  }

  method ProvisionFleet(k: Keys, server: string, owner: Secret, start: Progress, fleet: seq<FleetAgent>,
                        minted: seq<Secret>)
    returns (st: Progress, failed: Option<Error>)
    requires |minted| == |fleet|
    ensures (st, failed) == Fleet(k, server, owner, start, fleet, minted)
  {
    st := start;
    for i := 0 to |fleet|
      invariant Fleet(k, server, owner, start, fleet[..i], minted[..i]) == (st, None)
    {
      FleetStep(k, server, owner, start, fleet, minted, i);
      var agent := fleet[i];
      var slot := AgentSlot(server, agent.id);
      var isFresh := slot !in st.slots;
      var secret := minted[i];
      if !isFresh {
        var existing := k.decode(st.slots[slot]);
        if existing.None? {
          st := Skip(st, agent);
          continue;
        }
        secret := existing.value;
      }
      var known := if k.usable(secret) then Registered(k, owner, st, agent, k.pubHex(secret)) else Err(BadKey);
      if !known.Ok? {
        FleetStops(k, server, owner, start, fleet, minted, i);
        return st, Some(BadKey);
      }
      if known.value.None? {
        // refused: this agent's slot stays as it was
        st := Skip(st, agent);
        continue;
      }
      st := WithKey(k, known.value.value, agent, slot, secret, isFresh);
    }
    assert fleet[..|fleet|] == fleet && minted[..|minted|] == minted;
    failed := None;
  }

  lemma FleetStep(k: Keys, server: string, owner: Secret, st: Progress, fleet: seq<FleetAgent>, minted: seq<Secret>,
                  i: nat)
    requires |minted| == |fleet| && i < |fleet|
    requires Fleet(k, server, owner, st, fleet[..i], minted[..i]).1.None?
    ensures var before := Fleet(k, server, owner, st, fleet[..i], minted[..i]).0;
            Fleet(k, server, owner, st, fleet[..i + 1], minted[..i + 1]) ==
            match Agent(k, server, owner, before, fleet[i], minted[i])
            case Ok(next) => (next, None)
            case Err(e) => (before, Some(e))
            case Crashed => (before, Some(BadKey))
  {
    assert fleet[..i + 1][..i] == fleet[..i] && minted[..i + 1][..i] == minted[..i];
  }

  /** Once a step has failed, the rest of the fleet changes nothing. */
  lemma {:induction false} FleetStops(k: Keys, server: string, owner: Secret, st: Progress, fleet: seq<FleetAgent>,
                                      minted: seq<Secret>, i: nat)
    requires |minted| == |fleet| && i < |fleet|
    requires Fleet(k, server, owner, st, fleet[..i + 1], minted[..i + 1]).1.Some?
    ensures Fleet(k, server, owner, st, fleet, minted) == Fleet(k, server, owner, st, fleet[..i + 1], minted[..i + 1])
  {
    if i + 1 == |fleet| {
      assert fleet[..i + 1] == fleet && minted[..i + 1] == minted;
    } else {
      var last := |fleet| - 1;
      assert fleet[..last][..i + 1] == fleet[..i + 1] && minted[..last][..i + 1] == minted[..i + 1];
      FleetStops(k, server, owner, st, fleet[..last], minted[..last], i);
    }
  }
}
