/** What the marker says and what is answered: that it only ever holds a public key, that success means
    it names the key stored, and exactly when each operation succeeds. */
module MarkerLaws {
  import opened Text
  import opened Secrets
  import opened Identity
  import opened Machine
  import opened AgentKeys
  import opened KeyStoreLaws
  import opened OperationLaws

  // --- nothing secret in the marker ---------------------------------------------------

  /** The text begins some public key: all of it, none of it, or as much as a crash let through. */
  ghost predicate BeginsAnNpub(k: Keys, text: string) {
    exists s, n :: text == Prefix(k.npub(s), n)
  }

  ghost predicate MarkerIsPublic(w: World, k: Keys) {
    w.marker.Some? ==> BeginsAnNpub(k, w.marker.value)
  }

  lemma WholeIsPrefix(k: Keys, s: Secret)
    ensures BeginsAnNpub(k, k.npub(s))
  {
    assert Prefix(k.npub(s), |k.npub(s)|) == k.npub(s);
  }

  lemma WriteKeepsPublic(w: World, k: Keys, s: Secret)
    requires MarkerIsPublic(w, k)
    ensures MarkerIsPublic(WriteMarker(w, k.npub(s)).0, k)
  {
    WholeIsPrefix(k, s);
    assert forall n :: BeginsAnNpub(k, Prefix(k.npub(s), n));
  }

  lemma StoreKeepsPublic(w: World, backend: Backend, k: Keys, slots: Slots, s: Secret)
    requires MarkerIsPublic(w, k)
    ensures MarkerIsPublic(Store(w, backend, slots, k.npub(s)).0, k)
  {
    var (w1, wrote) := WriteRaw(w, backend, slots);
    if wrote.Ok? { WriteKeepsPublic(ReadRaw(w1, backend).0, k, s); }
    hide WriteMarker;
  }

  lemma LoadKeepsPublic(w: World, backend: Backend, k: Keys, env: Option<Secret>, minted: Secret)
    requires MarkerIsPublic(w, k)
    ensures MarkerIsPublic(LoadOrCreate(w, backend, k, env, minted).0, k)
  {
    LoadReads(w, backend);
    var (w1, r) := Load(w, backend);
    if r.Ok? {
      if IDENTITY_SLOT in r.value {
        var secret := Decoded(k, r.value[IDENTITY_SLOT]);
        if secret.Some? { WriteKeepsPublic(w1, k, secret.value); }
      } else {
        StoreKeepsPublic(w1, backend, k, r.value[IDENTITY_SLOT := k.nsec(minted)], minted);
      }
    }
    hide Load, Store, WriteMarker;
  }

  lemma ImportKeepsPublic(w: World, backend: Backend, k: Keys, secret: Option<Secret>)
    requires MarkerIsPublic(w, k)
    ensures MarkerIsPublic(Import(w, backend, k, secret).0, k)
  {
    LoadReads(w, backend);
    var (w1, r) := Load(w, backend);
    if secret.Some? {
      var slots := if r.Ok? then r.value else map[];
      ReplaceKeepsPublic(w1, backend, k, slots[IDENTITY_SLOT := k.nsec(secret.value)], secret.value);
    }
    hide Load, Replace, BeginsAnNpub;
  }

  lemma ReplaceKeepsPublic(w: World, backend: Backend, k: Keys, slots: Slots, s: Secret)
    requires MarkerIsPublic(w, k)
    ensures MarkerIsPublic(Replace(w, backend, slots, k.npub(s)).0, k)
  {
    StoreKeepsPublic(w, backend, k, slots, s);
    hide Store, BeginsAnNpub;
  }

  lemma MachineKeepsPublic(w: World, backend: Backend, k: Keys, op: Op)
    requires MarkerIsPublic(w, k) && IsMachineOp(op)
    ensures MarkerIsPublic(Do(w, backend, k, op), k)
  {
    MachineRewrites(w, backend, k, op);
    LoadReads(w, backend);
    var (w1, r) := Load(w, backend);
    if r.Ok? && IDENTITY_SLOT in r.value {
      var secret := Decoded(k, r.value[IDENTITY_SLOT]);
      if secret.Some? { StoreKeepsPublic(w1, backend, k, Rewritten(op, r.value), secret.value); }
    }
    hide Do, Load, Store, Rewritten;
  }

  lemma ProvisionKeepsPublic(w: World, backend: Backend, k: Keys, server: string, office: OfficeSide,
                             fleet: seq<FleetAgent>, owner: HeldKey, minted: seq<Secret>)
    requires |minted| == |fleet| && MarkerIsPublic(w, k)
    ensures MarkerIsPublic(Provision(w, backend, k, server, office, Ok(fleet), owner, minted).0, k)
  {
    LoadReads(w, backend);
    var (w1, r) := Load(w, backend);
    if r.Ok? {
      var st := Fleet(k, server, owner.secret, Start(r.value, office), fleet, minted).0;
      StoreKeepsPublic(w1, backend, k, st.slots, owner.secret);
    }
    hide Load, Store, Fleet;
  }

  lemma StepKeepsPublic(w: World, backend: Backend, k: Keys, e: Event)
    requires MarkerIsPublic(w, k)
    ensures MarkerIsPublic(Step(w, backend, k, e), k)
  {
    var v := w.(script := e.fates);
    if IsMachineOp(e.op) {
      MachineKeepsPublic(v, backend, k, e.op);
    } else {
      hide LoadOrCreate, Import, Provision, BeginsAnNpub;
      match e.op
      case GetKey(env, minted) => LoadKeepsPublic(v, backend, k, env, minted);
      case ImportKey(secret) => ImportKeepsPublic(v, backend, k, secret);
      case ProvisionAgents(env, minted, server, office, fleet) =>
        LoadKeepsPublic(v, backend, k, env, minted);
        var (w1, owner) := LoadOrCreate(v, backend, k, env, minted);
        if owner.Ok? {
          ProvisionKeepsPublic(w1, backend, k, server, office, Agents(fleet), owner.value, NewKeys(fleet));
        }
      case _ =>
    }
  }

  /** Whatever is done, on any keychain, cut off anywhere: the marker file never holds anything but a public
      key or the beginning of one. */
  lemma {:induction false} RunKeepsMarkerPublic(w: World, backend: Backend, k: Keys, events: seq<Event>)
    requires MarkerIsPublic(w, k)
    ensures MarkerIsPublic(Run(w, backend, k, events), k)
  {
    if events == [] {
    } else {
      RunKeepsMarkerPublic(w, backend, k, events[..|events| - 1]);
      StepKeepsPublic(Run(w, backend, k, events[..|events| - 1]), backend, k, events[|events| - 1]);
    }
  }

  // --- success names the key ------------------------------------------------------------

  /** The marker names the identity that is stored. */
  predicate NamesItsKey(w: World, k: Keys) {
    Identified(w, k).Some? && Marker(w) == Some(k.npub(Identified(w, k).value))
  }

  /** Did the operation report success? The world outside reports nothing. */
  function Succeeds(w: World, backend: Backend, k: Keys, op: Op): bool {
    match op
    case GetKey(env, minted) => LoadOrCreate(w, backend, k, env, minted).1.Ok?
    case ImportKey(secret) => Import(w, backend, k, secret).1.Ok?
    case WipeOut => WipeKey(w).1.Ok?
    case ConfirmStored => SetConfirmed(w, true).1.Ok?
    case RememberMachine(server, token, name) => Remember(w, backend, k, server, token, name).1.Ok?
    case ForgetMachine(server, keepLabel) => Forget(w, backend, k, server, keepLabel).1.Ok?
    case MigrateMachine(server) => MigrateTo(w, backend, k, server).1.Ok?
    case ProvisionAgents(env, minted, server, office, fleet) =>
      var (w1, owner) := LoadOrCreate(w, backend, k, env, minted);
      owner.Ok?
      && Provision(w1, backend, k, server, office, Ok(Agents(fleet)), owner.value, NewKeys(fleet)).2.Ok?
    case MarkerDeleted => false
    case EntryDeleted => false
  }

  predicate Untouched(w: World, w': World) {
    w'.entry == w.entry && w'.marker == w.marker
  }

  /** Writing slots under the identity they hold: on success it is there and named. */
  lemma StoreNames(w: World, backend: Backend, k: Keys, slots: Slots, s: Secret)
    requires Sound(k) && IDENTITY_SLOT in slots && Decoded(k, slots[IDENTITY_SLOT]) == Some(s)
    ensures Store(w, backend, slots, k.npub(s)).1.Ok? ==>
              NamesItsKey(Store(w, backend, slots, k.npub(s)).0, k)
              && Identified(Store(w, backend, slots, k.npub(s)).0, k) == Some(s)
  {
    StoredMeansStored(w, backend, slots, k.npub(s));
    hide Store;
  }

  lemma MachineNames(w: World, backend: Backend, k: Keys, op: Op)
    requires Sound(k) && IsMachineOp(op) && Succeeds(w, backend, k, op)
    ensures NamesItsKey(Do(w, backend, k, op), k) || Untouched(w, Do(w, backend, k, op))
  {
    MachineStores(w, backend, k, op);
    LoadReads(w, backend);
    var (w1, r) := Load(w, backend);
    if r.Ok? && IDENTITY_SLOT in r.value {
      RewritesItsOwn(op, r.value);
      var secret := Decoded(k, r.value[IDENTITY_SLOT]);
      if secret.Some? { StoreNames(w1, backend, k, Rewritten(op, r.value), secret.value); }
    }
    hide Do, Succeeds, Load, Store, Rewritten, NamesItsKey;
  }

  /** A registration that succeeds has found nothing to do, or its rewrite has succeeded. */
  lemma MachineStores(w: World, backend: Backend, k: Keys, op: Op)
    requires IsMachineOp(op) && Succeeds(w, backend, k, op)
    ensures var w' := Do(w, backend, k, op);
            var (w1, r) := Load(w, backend);
            || w' == w1
            || (r.Ok? && IDENTITY_SLOT in r.value
                && var (x, done) := Rewrite(w1, backend, k, Rewritten(op, r.value), r.value[IDENTITY_SLOT]);
                   x == w' && done.Ok?)
  {
    hide Rewrite, Load, Store;
    var (w1, r) := Load(w, backend);
    if r.Ok? { RewritesItsOwn(op, r.value); }
  }

  lemma ProvisionNames(w: World, backend: Backend, k: Keys, server: string, office: OfficeSide,
                       fleet: seq<FleetAgent>, owner: HeldKey, minted: seq<Secret>)
    requires Sound(k) && |minted| == |fleet| && (owner.ephemeral || Identified(w, k) == Some(owner.secret))
    requires Provision(w, backend, k, server, office, Ok(fleet), owner, minted).2.Ok?
    ensures var w' := Provision(w, backend, k, server, office, Ok(fleet), owner, minted).0;
            NamesItsKey(w', k) || Untouched(w, w')
  {
    LoadReads(w, backend);
    var (w1, r) := Load(w, backend);
    var st := Fleet(k, server, owner.secret, Start(r.value, office), fleet, minted).0;
    FleetKeepsSlots(k, server, owner.secret, Start(r.value, office), fleet, minted);
    if !owner.ephemeral { StoreNames(w1, backend, k, st.slots, owner.secret); }
    hide Load, Store, Fleet, NamesItsKey;
  }

  /** On any keychain: an operation that reports success has left the marker naming the identity stored, or
      has touched neither. */
  lemma SuccessNamesTheKey(w: World, backend: Backend, k: Keys, op: Op)
    requires Sound(k) && Mints(k, op) && !op.WipeOut? && Succeeds(w, backend, k, op)
    ensures var w' := Do(w, backend, k, op); NamesItsKey(w', k) || Untouched(w, w')
  {
    if IsMachineOp(op) {
      MachineNames(w, backend, k, op);
    } else {
      hide LoadOrCreate, Import, Provision;
      match op
      case GetKey(env, minted) => GetKeyNames(w, backend, k, env, minted);
      case ImportKey(secret) => ImportNamesTheKey(w, backend, k, secret, secret.value);
      case ProvisionAgents(env, minted, server, office, fleet) =>
        GetKeyNames(w, backend, k, env, minted);
        var (w1, owner) := LoadOrCreate(w, backend, k, env, minted);
        ProvisionNames(w1, backend, k, server, office, Agents(fleet), owner.value, NewKeys(fleet));
      case _ =>
    }
  }

  lemma GetKeyNames(w: World, backend: Backend, k: Keys, env: Option<Secret>, minted: Secret)
    requires Sound(k) && k.usable(minted)
    ensures var (w', r) := LoadOrCreate(w, backend, k, env, minted);
            && (env.Some? ==> w' == w && r == Ok(HeldKey(env.value, true)))
            && (r.Ok? && env.None? ==>
                  NamesItsKey(w', k) && r.value == HeldKey(Identified(w', k).value, false))
  {
    if env.None? { LoadHeals(w, backend, k, minted); }
  }

  /** An import that succeeds answers with the public key, has the marker name it, and the next load returns
      the key imported and writes nothing; whatever the keychain did on the way. */
  lemma ImportNamesTheKey(w: World, backend: Backend, k: Keys, secret: Option<Secret>, s: Secret)
    requires Sound(k) && Import(w, backend, k, secret).1.Ok? && secret == Some(s)
    ensures var (w', r) := Import(w, backend, k, secret);
            && r == Ok(k.npub(s)) && NamesItsKey(w', k) && Identified(w', k) == Some(s)
            && forall minted ::
                 var later := w'.(script := []);
                 LoadOrCreate(later, backend, k, None, minted) == (later, Ok(HeldKey(s, false)))
  {
    var (w1, r) := Load(w, backend);
    var slots := (if r.Ok? then r.value else map[])[IDENTITY_SLOT := k.nsec(s)];
    ReplaceNames(w1, backend, k, slots, s);
    hide Load, Replace, NamesItsKey, Identified;
    var w' := Import(w, backend, k, secret).0;
    NamedIsReturned(w'.(script := []), backend, k, s);
  }

  lemma ReplaceNames(w: World, backend: Backend, k: Keys, slots: Slots, s: Secret)
    requires Sound(k) && IDENTITY_SLOT in slots && Decoded(k, slots[IDENTITY_SLOT]) == Some(s)
    ensures var (w', r) := Replace(w, backend, slots, k.npub(s));
            r.Ok? ==> forall script :: NamesItsKey(w'.(script := script), k)
                                       && Identified(w'.(script := script), k) == Some(s)
    ensures var (w', r) := Replace(w, backend, slots, k.npub(s));
            r.Ok? ==> NamesItsKey(w', k) && Identified(w', k) == Some(s)
  {
    StoreNames(w, backend, k, slots, s);
    hide Store;
  }

  /** A stored key that reads, under a marker that names it, is returned and nothing is written. */
  lemma NamedIsReturned(w: World, backend: Backend, k: Keys, s: Secret)
    requires NamesItsKey(w, k) && Identified(w, k) == Some(s) && w.script == []
    ensures forall minted :: LoadOrCreate(w, backend, k, None, minted) == (w, Ok(HeldKey(s, false)))
  {
  }

  // --- exactly when each succeeds ---------------------------------------------------------

  /** The three answers about the key, for every world, every fate of the read and any environment. */
  lemma StateExactly(w: World, backend: Backend, env: Option<Secret>)
    ensures var r := StateWith(w, backend, env).1;
            var read := !Refused(Fated(w)) && w.entry.Holding?;
            && (r == Ok(Ready) <==> env.Some? || (read && Held(w).Some?))
            && (r == Ok(NoKey) <==>
                  env.None? && !Fated(w).Dies? && if read then Held(w).None? else Marker(w).None?)
            && (r == Ok(KeyLocked) <==> env.None? && !Fated(w).Dies? && !read && Marker(w).Some?)
            && (r.Crashed? <==> env.None? && Fated(w).Dies?)
  {
  }

  /** A load, by what is stored and by the fates of its steps. A key that reads is returned exactly if the
      store was read and its marker is right or can be put right; one that does not is an error and
      changes nothing; where there is none, and no marker says there was one, the key minted is stored
      and returned exactly if the write, the read back and the marker all work; otherwise nothing. */
  lemma LoadExactly(w: World, backend: Backend, k: Keys, minted: Secret)
    requires Honest(w.script)
    ensures var (w', r) := LoadOrCreate(w, backend, k, None, minted);
            var read, id := !Refused(FateOf(w.script, 0)), Identified(w, k);
            && (id.Some? ==>
                  && (r.Ok? ==> r.value == HeldKey(id.value, false)) && w'.entry == w.entry
                  && (r.Ok? <==> read && (Marker(w) == Some(k.npub(id.value)) || !Refused(FateOf(w.script, 1)))))
            && (Held(w).Some? && id.None? ==>
                  !r.Ok? && Untouched(w, w') && (read ==> r == Err(BadKey)))
            && (Held(w).None? && (w.entry.Holding? || (w.entry.Absent? && Marker(w).None?)) ==>
                  && (r.Ok? ==> r.value == HeldKey(minted, false)
                                && SlotsIn(w') == SlotsIn(w)[IDENTITY_SLOT := k.nsec(minted)])
                  && (r.Ok? <==> read && !RefusedInStore(w.script)))
            && (Held(w).None? && !w.entry.Holding? && (w.entry.Garbled? || Marker(w).Some?) ==>
                  !r.Ok? && Untouched(w, w'))
  {
    LoadReads(w, backend);
    LoadTakesOne(w, backend);
    var (w1, r) := Load(w, backend);
    assert forall i: nat :: FateOf(w1.script, i) == FateOf(w.script, i + 1);
    LoadWorksExactly(w, backend);
    if r.Ok? && IDENTITY_SLOT !in r.value {
      StoreExactly(w1, backend, r.value[IDENTITY_SLOT := k.nsec(minted)], k.npub(minted));
    }
    hide Load, Store;
  }

  /** Writing, reading back and the marker, as the second to fourth steps of an operation. */
  predicate RefusedInStore(fates: seq<Fate>) {
    Refused(FateOf(fates, 1)) || Refused(FateOf(fates, 2)) || Refused(FateOf(fates, 3))
  }

  /** The store can be read: there is a blob, or nothing and no marker saying there was. */
  lemma LoadWorksExactly(w: World, backend: Backend)
    ensures Load(w, backend).1.Ok? <==>
              !Refused(FateOf(w.script, 0)) && (w.entry.Holding? || (w.entry.Absent? && Marker(w).None?))
  {
  }

  /** Whether a registration finds what it is to write. */
  predicate Unneeded(op: Op, slots: Slots)
    requires IsMachineOp(op)
  {
    match op
    case RememberMachine(_, _, _) => false
    case ForgetMachine(server, keepLabel) =>
      IDENTITY_SLOT !in slots || (TokenSlot(server) !in slots && (keepLabel || LabelSlot(server) !in slots))
    case MigrateMachine(_) => IDENTITY_SLOT !in slots || (HOST_TOKEN_SLOT !in slots && LABEL_SLOT !in slots)
  }

  /** A registration succeeds exactly if what it is given is not blank, the store could be read, and there
      was nothing to do, or the identity reads as a key and none of the three steps of the rewrite was
      refused. */
  lemma RegistersExactly(w: World, backend: Backend, k: Keys, op: Op)
    requires IsMachineOp(op) && Honest(w.script)
    ensures Succeeds(w, backend, k, op) <==>
              && (op.RememberMachine? ==> op.token != "" && op.name != "")
              && Load(w, backend).1.Ok?
              && (Unneeded(op, SlotsIn(w)) || (Identified(w, k).Some? && !RefusedInStore(w.script)))
  {
    LoadReads(w, backend);
    LoadTakesOne(w, backend);
    var (w1, r) := Load(w, backend);
    assert forall i: nat :: FateOf(w1.script, i) == FateOf(w.script, i + 1);
    if r.Ok? {
      RewritesItsOwn(op, r.value);
      if IDENTITY_SLOT in r.value { RewritesExactly(w1, backend, k, Rewritten(op, r.value), r.value[IDENTITY_SLOT]); }
    }
    hide Load, Rewrite;
  }

  lemma RewritesExactly(w: World, backend: Backend, k: Keys, slots: Slots, existing: string)
    requires Honest(w.script)
    ensures Rewrite(w, backend, k, slots, existing).1.Ok? <==>
              && Decoded(k, existing).Some? && !Refused(FateOf(w.script, 0)) && !Refused(FateOf(w.script, 1))
              && !Refused(FateOf(w.script, 2))
  {
    var secret := Decoded(k, existing);
    if secret.Some? { StoreExactly(w, backend, slots, k.npub(secret.value)); }
    hide Store;
  }
}
