/** The key store over whole runs: any operations in any order, each meeting any
    fate at each of its reads and writes, with the process free to die between
    any two of them. */
module KeyStoreLaws {
  import opened Text
  import opened Secrets
  import opened Identity
  import opened Machine
  import opened AgentKeys

  /** Everything that can happen to the store. The last two are the world outside. */
  datatype Op =
    | GetKey(env: Option<Secret>, minted: Secret)
    | ImportKey(secret: Option<Secret>)
    | WipeOut
    | ConfirmStored
    | RememberMachine(server: string, token: string, name: string)
    | ForgetMachine(server: string, keepLabel: bool)
    | MigrateMachine(server: string)
    | ProvisionAgents(env: Option<Secret>, minted: Secret, server: string, office: OfficeSide,
                      fleet: seq<(FleetAgent, Secret)>)
    | MarkerDeleted
    | EntryDeleted

  /** One operation and the fates its reads and writes will meet. */
  datatype Event = Event(op: Op, fates: seq<Fate>)

  function Agents(fleet: seq<(FleetAgent, Secret)>): seq<FleetAgent> {
    seq(|fleet|, i requires 0 <= i < |fleet| => fleet[i].0)
  }

  /** The keys that would be minted, agent by agent. */
  function NewKeys(fleet: seq<(FleetAgent, Secret)>): seq<Secret> {
    seq(|fleet|, i requires 0 <= i < |fleet| => fleet[i].1)
  }

  /** `provision`: the owner first, then the fleet. */
  function ProvisionAll(w: World, backend: Backend, k: Keys, op: Op): World
    requires op.ProvisionAgents?
  {
    var (w1, owner) := LoadOrCreate(w, backend, k, op.env, op.minted);
    if !owner.Ok? then w1
    else Provision(w1, backend, k, op.server, op.office, Ok(Agents(op.fleet)), owner.value, NewKeys(op.fleet)).0
  }

  function Do(w: World, backend: Backend, k: Keys, op: Op): World
  {
    match op
    case GetKey(env, minted) => LoadOrCreate(w, backend, k, env, minted).0
    case ImportKey(secret) => Import(w, backend, k, secret).0
    case WipeOut => WipeKey(w).0
    case ConfirmStored => SetConfirmed(w, true).0
    case RememberMachine(server, token, name) => Remember(w, backend, k, server, token, name).0
    case ForgetMachine(server, keepLabel) => Forget(w, backend, k, server, keepLabel).0
    case MigrateMachine(server) => MigrateTo(w, backend, k, server).0
    case ProvisionAgents(_, _, _, _, _) => ProvisionAll(w, backend, k, op)
    case MarkerDeleted => w.(marker := None)
    case EntryDeleted => w.(entry := Absent)
  }

  function Step(w: World, backend: Backend, k: Keys, e: Event): World
  {
    Do(w.(script := e.fates), backend, k, e.op)
  }

  function Run(w: World, backend: Backend, k: Keys, events: seq<Event>): World
  {
    if events == [] then w else Step(Run(w, backend, k, events[..|events| - 1]), backend, k, events[|events| - 1])
  }

  // --- what is assumed of a run -----------------------------------------------

  /** The keychain keeps what it says it keeps; it may still refuse, lock, or die at any moment. */
  predicate Honest(fates: seq<Fate>) {
    forall i :: 0 <= i < |fates| ==> !fates[i].Keeps?
  }

  /** Identities are minted by a generator of usable keys. */
  predicate Mints(k: Keys, op: Op) {
    && (op.GetKey? ==> k.usable(op.minted))
    && (op.ProvisionAgents? ==> k.usable(op.minted))
  }

  // --- a marker never outlives or precedes its key ------------------------------

  function Held(w: World): Option<string> {
    if w.entry.Holding? then SlotOf(w.entry.slots, IDENTITY_SLOT) else None
  }

  /** The key the store holds, where it can be read as one. */
  function Identified(w: World, k: Keys): Option<Secret> {
    if Held(w).Some? then Decoded(k, Held(w).value) else None
  }

  /** A readable marker stands only in front of a stored identity. */
  predicate MarkedOnlyIfHeld(w: World) {
    Marker(w).Some? ==> Held(w).Some?
  }

  /** One write of slots that hold an identity, interrupted anywhere: either the old
      entry stands or the new one does, and a marker only in front of one of them. */
  lemma StoreKeepsMark(w: World, backend: Backend, slots: Slots, npub: string)
    requires Honest(w.script) && IDENTITY_SLOT in slots
    ensures var (w', r) := Store(w, backend, slots, npub);
            && Honest(w'.script) && (w'.entry == w.entry || w'.entry == Holding(slots))
            && (MarkedOnlyIfHeld(w) ==> MarkedOnlyIfHeld(w'))
            && w'.confirmed == w.confirmed
  {
  }

  lemma LoadReads(w: World, backend: Backend)
    ensures var (w', r) := Load(w, backend);
            && w' == w.(script := w'.script) && (Honest(w.script) ==> Honest(w'.script))
            && (r.Ok? && w.entry.Holding? ==> r.value == w.entry.slots)
            && (r.Ok? && !w.entry.Holding? ==> w.entry.Absent? && Marker(w).None? && r.value == map[])
  {
  }

  /** `Locked` is said exactly when a marker stands and the entry is missing or, on a keychain, unreadable. */
  lemma LockedExactly(w: World, backend: Backend)
    ensures Load(w, backend).1 == Err(Locked) <==>
            Marker(w).Some? && match Fated(w)
                               case Works => w.entry.Absent?
                               case Keeps(_) => w.entry.Absent?
                               case Fails(_) => backend.Keychain?
                               case Dies(_) => false
  {
  }

  /** So while the mark is kept, a keychain that answers is never reported locked. */
  lemma ReadableIsNotLocked(w: World, backend: Backend)
    requires MarkedOnlyIfHeld(w) && Fated(w).Works?
    ensures Load(w, backend).1 != Err(Locked)
  {
    LockedExactly(w, backend);
  }

  // --- minting ----------------------------------------------------------------

  /** Whatever the keychain does, a stored identity is not written over, and a key is
      minted only where the store was read and holds none (and, if there is no entry
      at all, no marker says there was one). */
  lemma MintsOnlyWhereThereIsNone(w: World, backend: Backend, k: Keys, minted: Secret)
    ensures var (w', r) := LoadOrCreate(w, backend, k, None, minted);
            && (Held(w).Some? ==> w'.entry == w.entry)
            && (w'.entry != w.entry ==> !Fated(w).Fails? && !Fated(w).Dies?)
            && (w'.entry != w.entry ==> w.entry.Holding? || (w.entry.Absent? && Marker(w).None?))
  {
    LoadReads(w, backend);
  }

  /** A store that reports success is proof: the identity reads back and the marker names it,
      whatever the keychain claimed on the way. */
  lemma StoredMeansStored(w: World, backend: Backend, slots: Slots, npub: string)
    requires IDENTITY_SLOT in slots
    ensures var (w', r) := Store(w, backend, slots, npub);
            r.Ok? ==> Held(w') == Some(slots[IDENTITY_SLOT]) && w'.marker == Some(npub)
  {
  }

  /** Only the identity is compared on reading back. Of all the slots, a store that reports success
      kept exactly those written when the keychain did as asked, or kept that very blob instead. */
  lemma StoredMeansAllSlots(w: World, backend: Backend, slots: Slots, npub: string)
    ensures var (w', r) := Store(w, backend, slots, npub);
            r.Ok? ==> (w'.entry == Holding(slots) <==> Fated(w).Works? || Fated(w) == Keeps(Holding(slots)))
  {
    var (w1, wrote) := WriteRaw(w, backend, slots);
    assert Store(w, backend, slots, npub).0.entry == w1.entry;
  }

  /** A keychain that keeps the identity and loses a token is told it did well. */
  lemma TokenLostOnStore(backend: Backend, nsec: string, token: string, npub: string)
    ensures var slots := map[IDENTITY_SLOT := nsec, HOST_TOKEN_SLOT := token];
            var w := World(Absent, None, false, [Keeps(Holding(map[IDENTITY_SLOT := nsec]))]);
            var (w', r) := Store(w, backend, slots, npub);
            r.Ok? && HOST_TOKEN_SLOT !in SlotsIn(w')
  {
    var w := World(Absent, None, false, [Keeps(Holding(map[IDENTITY_SLOT := nsec]))]);
    assert Moved(w).script == [];
  }

  /** A successful load leaves the marker naming the identity that is stored: a
      marker lost, cut short or left behind by a crash is healed by it. */
  lemma LoadHeals(w: World, backend: Backend, k: Keys, minted: Secret)
    requires Sound(k) && k.usable(minted)
    ensures var (w', r) := LoadOrCreate(w, backend, k, None, minted);
            r.Ok? ==> && Held(w').Some? && Decoded(k, Held(w').value) == Some(r.value.secret)
                      && Marker(w') == Some(k.npub(r.value.secret)) && !r.value.ephemeral
  {
    LoadReads(w, backend);
    var (w1, r) := Load(w, backend);
    if r.Ok? {
      if IDENTITY_SLOT in r.value {
        assert Held(w1) == Some(r.value[IDENTITY_SLOT]);
      } else {
        var slots := r.value[IDENTITY_SLOT := k.nsec(minted)];
        assert Decoded(k, slots[IDENTITY_SLOT]) == Some(minted);
        StoredMeansStored(w1, backend, slots, k.npub(minted));
      }
    }
  }

  /** When the state is reported as none, for every world and every fate of the read. */
  lemma NoKeyExactly(w: World, backend: Backend)
    ensures StateWith(w, backend, None).1 == Ok(NoKey) <==>
            match Fated(w)
            case Dies(_) => false
            case Fails(_) => Marker(w).None?
            case _ => if w.entry.Holding? then Held(w).None? else Marker(w).None?
  {
  }

  /** "We could not read it" does become "there was nothing there": when the read fails, or what
      was read is no blob, the state is reported as none exactly when the marker is gone too. */
  lemma NoKeyOverAStoredKey(w: World, backend: Backend)
    requires Fated(w).Fails? || (w.entry.Garbled? && !Fated(w).Dies?)
    ensures StateWith(w, backend, None).1 == Ok(NoKey) <==> Marker(w).None?
    ensures StateWith(w, backend, None).1 == Ok(KeyLocked) <==> Marker(w).Some?
  {
    NoKeyExactly(w, backend);
  }

  /** An import goes past a locked store because "nothing can be lost". The identity cannot; the
      other slots can: one that succeeds keeps them all exactly when the store could be read, or
      held none. */
  lemma ImportKeepsOtherSlots(w: World, backend: Backend, k: Keys, secret: Option<Secret>)
    requires Honest(w.script) && w.entry.Holding?
    ensures var (w', r) := Import(w, backend, k, secret);
            r.Ok? ==> && Held(w') == Some(k.nsec(secret.value))
                      && (SameBut(SlotsIn(w), SlotsIn(w'), {IDENTITY_SLOT}) <==>
                            Fated(w).Works? || SlotsIn(w).Keys <= {IDENTITY_SLOT})
  {
    LoadReads(w, backend);
    var (w1, r) := Load(w, backend);
    var (w', done) := Import(w, backend, k, secret);
    if done.Ok? {
      var kept := if r.Ok? then r.value else map[];
      ReplaceStores(w1, backend, kept[IDENTITY_SLOT := k.nsec(secret.value)], k.npub(secret.value));
      assert forall name :: name in SlotsIn(w) && name != IDENTITY_SLOT ==> SlotOf(SlotsIn(w), name).Some?;
    }
  }

  /** A keychain locked for one read, a key pasted in, and the machine's token is gone. */
  lemma LockedImportDropsTheToken(k: Keys, old_: string, secret: Secret, token: string)
    requires k.usable(secret)
    ensures var slots := map[IDENTITY_SLOT := old_, HOST_TOKEN_SLOT := token];
            var w := World(Holding(slots), Some("n"), false, [Fails(None)]);
            var (w', r) := Import(w, Keychain, k, Some(secret));
            r.Ok? && SlotsIn(w') == map[IDENTITY_SLOT := k.nsec(secret)]
  {
    var w := World(Holding(map[IDENTITY_SLOT := old_, HOST_TOKEN_SLOT := token]), Some("n"), false, [Fails(None)]);
    assert Moved(w).script == [];
    ReplaceStores(Moved(w), Keychain, map[IDENTITY_SLOT := k.nsec(secret)], k.npub(secret));
  }

  lemma ReplaceStores(w: World, backend: Backend, slots: Slots, npub: string)
    requires Honest(w.script)
    ensures Replace(w, backend, slots, npub).1.Ok? ==> Replace(w, backend, slots, npub).0.entry == Holding(slots)
  {
  }

  // --- registrations touch their own slots --------------------------------------

  function SlotsIn(w: World): Slots {
    if w.entry.Holding? then w.entry.slots else map[]
  }

  /** What a registration with `server` may change. */
  function OwnSlots(server: string): set<string> {
    {TokenSlot(server), LabelSlot(server), HOST_TOKEN_SLOT, LABEL_SLOT}
  }

  ghost predicate SameBut(a: Slots, b: Slots, own: set<string>) {
    forall name :: name !in own ==> SlotOf(a, name) == SlotOf(b, name)
  }

  predicate IsMachineOp(op: Op) {
    op.RememberMachine? || op.ForgetMachine? || op.MigrateMachine?
  }

  function ServerOf(op: Op): string
    requires IsMachineOp(op)
  {
    match op
    case RememberMachine(server, _, _) => server
    case ForgetMachine(server, _) => server
    case MigrateMachine(server) => server
  }

  /** The slots each registration would write. */
  function Rewritten(op: Op, slots: Slots): Slots
    requires IsMachineOp(op)
  {
    match op
    case RememberMachine(server, token, name) => slots[TokenSlot(server) := token][LabelSlot(server) := name]
    case ForgetMachine(server, keepLabel) => slots - ({TokenSlot(server)} + if keepLabel then {}
        else {LabelSlot(server)})
    case MigrateMachine(server) => Migrated(slots, server)
  }

  lemma RewritesItsOwn(op: Op, slots: Slots)
    requires IsMachineOp(op)
    ensures SameBut(slots, Rewritten(op, slots), OwnSlots(ServerOf(op)))
    ensures IDENTITY_SLOT !in OwnSlots(ServerOf(op))
    ensures SlotOf(Rewritten(op, slots), IDENTITY_SLOT) == SlotOf(slots, IDENTITY_SLOT)
  {
    SlotsApart(ServerOf(op), ServerOf(op));
    hide TokenSlot, LabelSlot;
    assert SameBut(slots, Rewritten(op, slots), OwnSlots(ServerOf(op)));
  }

  lemma RewriteKeepsMark(w: World, backend: Backend, k: Keys, slots: Slots, existing: string)
    requires Honest(w.script) && IDENTITY_SLOT in slots
    ensures var w' := Rewrite(w, backend, k, slots, existing).0;
            && (w'.entry == w.entry || w'.entry == Holding(slots))
            && (MarkedOnlyIfHeld(w) ==> MarkedOnlyIfHeld(w')) && w'.confirmed == w.confirmed
  {
    var secret := Decoded(k, existing);
    if secret.Some? { StoreKeepsMark(w, backend, slots, k.npub(secret.value)); }
  }

  /** Every registration either leaves the store as it was read or rewrites its own slots. */
  lemma MachineRewrites(w: World, backend: Backend, k: Keys, op: Op)
    requires IsMachineOp(op)
    ensures var w' := Do(w, backend, k, op);
            var (w1, r) := Load(w, backend);
            || w' == w || w' == w1
            || (r.Ok? && IDENTITY_SLOT in r.value && w' == Rewrite(w1, backend, k, Rewritten(op, r.value),
                r.value[IDENTITY_SLOT]).0)
  {
    hide Rewrite, Load, Store;
    var (w1, r) := Load(w, backend);
    if r.Ok? { RewritesItsOwn(op, r.value); }
  }

  /** Registering, forgetting and migrating, cut off anywhere, leave every slot but
      that server's own, and create no entry where there was none. */
  lemma MachineTouchesItsOwn(w: World, backend: Backend, k: Keys, e: Event)
    requires IsMachineOp(e.op) && Honest(e.fates)
    ensures var w' := Step(w, backend, k, e);
            && SameBut(SlotsIn(w), SlotsIn(w'), OwnSlots(ServerOf(e.op)))
            && (w'.entry != w.entry ==> Held(w).Some? && w'.entry.Holding?)
            && (MarkedOnlyIfHeld(w) ==> MarkedOnlyIfHeld(w')) && w'.confirmed == w.confirmed
  {
    var v := w.(script := e.fates);
    MachineRewrites(v, backend, k, e.op);
    LoadReads(v, backend);
    var (w1, r) := Load(v, backend);
    if r.Ok? && IDENTITY_SLOT in r.value {
      RewritesItsOwn(e.op, r.value);
      RewriteKeepsMark(w1, backend, k, Rewritten(e.op, r.value), r.value[IDENTITY_SLOT]);
    }
    hide Do, Load, Rewrite, Rewritten, OwnSlots;
  }

  /** In particular the identity and every other server's token and name. */
  lemma OthersAreNotOwn(server: string, other: string)
    requires server != other
    ensures {IDENTITY_SLOT, TokenSlot(other), LabelSlot(other)} !! OwnSlots(server)
  {
    SlotsApart(server, other);
    SlotsApart(other, server);
  }

  // --- provisioning -------------------------------------------------------------

  lemma {:induction false} FleetKeepsSlots(k: Keys, server: string, owner: Secret, st: Progress, fleet: seq<FleetAgent>,
                                           minted: seq<Secret>)
    requires |minted| == |fleet|
    ensures var after := Fleet(k, server, owner, st, fleet, minted).0;
            forall name :: name in st.slots ==> name in after.slots && after.slots[name] == st.slots[name]
  {
    if fleet == [] {
    } else {
      FleetKeepsSlots(k, server, owner, st, fleet[..|fleet| - 1], minted[..|fleet| - 1]);
    }
  }

  /** Provisioning, cut off anywhere, leaves every slot there was and keeps the mark. */
  lemma ProvisionKeeps(w: World, backend: Backend, k: Keys, server: string, office: OfficeSide, fleet: seq<FleetAgent>,
                       owner: HeldKey, minted: seq<Secret>)
    requires |minted| == |fleet| && Honest(w.script) && (owner.ephemeral || Held(w).Some?)
    ensures var w' := Provision(w, backend, k, server, office, Ok(fleet), owner, minted).0;
            && (MarkedOnlyIfHeld(w) ==> MarkedOnlyIfHeld(w'))
            && (forall name :: name in SlotsIn(w) ==> SlotOf(SlotsIn(w'), name) == SlotOf(SlotsIn(w), name))
            && w'.confirmed == w.confirmed
  {
    LoadReads(w, backend);
    var (w1, r) := Load(w, backend);
    if r.Ok? {
      var st := Fleet(k, server, owner.secret, Start(r.value, office), fleet, minted).0;
      FleetKeepsSlots(k, server, owner.secret, Start(r.value, office), fleet, minted);
      if Held(w).Some? { StoreKeepsMark(w1, backend, st.slots, k.npub(owner.secret)); }
    }
  }

  // --- whole runs -----------------------------------------------------------------

  /** Events that neither delete the entry from outside nor meet a keychain that lies. */
  predicate Fair(k: Keys, e: Event) {
    Honest(e.fates) && Mints(k, e.op) && !e.op.EntryDeleted?
  }

  lemma GetKeyKeeps(w: World, backend: Backend, k: Keys, env: Option<Secret>, minted: Secret)
    requires Sound(k) && k.usable(minted) && Honest(w.script)
    ensures var (w', r) := LoadOrCreate(w, backend, k, env, minted);
            && Honest(w'.script) && (MarkedOnlyIfHeld(w) ==> MarkedOnlyIfHeld(w'))
            && (Held(w).Some? ==> w'.entry == w.entry)
            && (r.Ok? && !r.value.ephemeral ==> Held(w').Some?)
            && w'.confirmed == w.confirmed
  {
    if env.None? {
      LoadReads(w, backend);
      MintsOnlyWhereThereIsNone(w, backend, k, minted);
      LoadHeals(w, backend, k, minted);
      var (w1, r) := Load(w, backend);
      if r.Ok? && IDENTITY_SLOT !in r.value {
        StoreKeepsMark(w1, backend, r.value[IDENTITY_SLOT := k.nsec(minted)], k.npub(minted));
      }
    }
  }

  lemma StepKeepsMark(w: World, backend: Backend, k: Keys, e: Event)
    requires Sound(k) && Fair(k, e) && MarkedOnlyIfHeld(w)
    ensures MarkedOnlyIfHeld(Step(w, backend, k, e))
  {
    var v := w.(script := e.fates);
    assert MarkedOnlyIfHeld(v);
    if IsMachineOp(e.op) {
      MachineTouchesItsOwn(w, backend, k, e);
    } else {
      match e.op
      case GetKey(env, minted) => GetKeyKeeps(v, backend, k, env, minted);
      case ImportKey(secret) => ImportKeepsMark(v, backend, k, secret);
      case WipeOut =>
      case ConfirmStored =>
      case ProvisionAgents(env, minted, server, office, fleet) =>
        GetKeyKeeps(v, backend, k, env, minted);
        var (w1, owner) := LoadOrCreate(v, backend, k, env, minted);
        if owner.Ok? { ProvisionKeeps(w1, backend, k, server, office, Agents(fleet), owner.value, NewKeys(fleet)); }
      case _ =>
    }
  }

  lemma ImportKeepsMark(w: World, backend: Backend, k: Keys, secret: Option<Secret>)
    requires Honest(w.script) && MarkedOnlyIfHeld(w)
    ensures MarkedOnlyIfHeld(Import(w, backend, k, secret).0)
  {
    LoadReads(w, backend);
    var (w1, r) := Load(w, backend);
    assert MarkedOnlyIfHeld(w1);
    if secret.Some? {
      ReplaceKeepsMark(w1, backend, (if r.Ok? then r.value else map[])[IDENTITY_SLOT := k.nsec(secret.value)],
          k.npub(secret.value));
    }
  }

  lemma ReplaceKeepsMark(w: World, backend: Backend, slots: Slots, npub: string)
    requires Honest(w.script) && MarkedOnlyIfHeld(w) && IDENTITY_SLOT in slots
    ensures MarkedOnlyIfHeld(Replace(w, backend, slots, npub).0)
  {
    StoreKeepsMark(w, backend, slots, npub);
  }

  /** In every run, crashes between any two writes included: no marker without its key,
      so nothing but the world outside makes a false locked state. */
  lemma {:induction false} RunKeepsMark(w: World, backend: Backend, k: Keys, events: seq<Event>)
    requires Sound(k) && MarkedOnlyIfHeld(w)
    requires forall i :: 0 <= i < |events| ==> Fair(k, events[i])
    ensures MarkedOnlyIfHeld(Run(w, backend, k, events))
  {
    if events == [] {
    } else {
      RunKeepsMark(w, backend, k, events[..|events| - 1]);
      StepKeepsMark(Run(w, backend, k, events[..|events| - 1]), backend, k, events[|events| - 1]);
    }
  }

  /** A stored identity is replaced by an import or a wipe and by nothing else, however
      the keychain locks, the process dies, or the marker is deleted from outside. */
  lemma {:induction false} RunKeepsIdentity(w: World, backend: Backend, k: Keys, events: seq<Event>)
    requires Sound(k) && Held(w).Some?
    requires forall i :: 0 <= i < |events| ==> Fair(k, events[i]) && !events[i].op.ImportKey? && !events[i].op.WipeOut?
    ensures Held(Run(w, backend, k, events)) == Held(w)
  {
    if events == [] {
    } else {
      var before, e := Run(w, backend, k, events[..|events| - 1]), events[|events| - 1];
      RunKeepsIdentity(w, backend, k, events[..|events| - 1]);
      StepKeepsIdentity(before, backend, k, e);
    }
  }

  lemma StepKeepsIdentity(w: World, backend: Backend, k: Keys, e: Event)
    requires Sound(k) && Fair(k, e) && Held(w).Some? && !e.op.ImportKey? && !e.op.WipeOut?
    ensures Held(Step(w, backend, k, e)) == Held(w)
    ensures !e.op.ConfirmStored? ==> Step(w, backend, k, e).confirmed == w.confirmed
  {
    var v := w.(script := e.fates);
    if IsMachineOp(e.op) {
      MachineTouchesItsOwn(w, backend, k, e);
      SlotsApart(ServerOf(e.op), ServerOf(e.op));
      assert IDENTITY_SLOT !in OwnSlots(ServerOf(e.op));
      assert SlotOf(SlotsIn(w), IDENTITY_SLOT) == SlotOf(SlotsIn(Step(w, backend, k, e)), IDENTITY_SLOT);
    } else {
      match e.op
      case GetKey(env, minted) => GetKeyKeeps(v, backend, k, env, minted);
      case ConfirmStored =>
      case ProvisionAgents(env, minted, server, office, fleet) =>
        GetKeyKeeps(v, backend, k, env, minted);
        var (w1, owner) := LoadOrCreate(v, backend, k, env, minted);
        if owner.Ok? {
          ProvisionKeeps(w1, backend, k, server, office, Agents(fleet), owner.value, NewKeys(fleet));
          assert IDENTITY_SLOT in SlotsIn(w1);
        }
      case _ =>
    }
  }
}
