/** The gate on wiping: a backup is exported, then confirmed with the token that
    export handed out, and only then may the identity be wiped. */
module BackupGate {
  import opened Text
  import opened Secrets
  import opened Identity
  import Machine
  import opened KeyStoreLaws
  import opened OperationLaws
  import opened MarkerLaws

  /** The store, and the token of the last export in memory. */
  datatype Host = Host(world: World, pending: Option<string>)

  /** What a page can ask of the host; `Other` is any further operation on the same store. */
  datatype Command =
    | ExportBackup(env: Option<Secret>, minted: Secret, opens: bool, token: string)
    | ConfirmBackup(token: string)
    | ImportIdentity(secret: Option<Secret>)
    | WipeIdentity
    | Other(op: Op)
    | Restart

  /** `env`: the key in the environment, if one is set; `opens`: whether the encrypted blob decrypted
      to the same key again. */
  function Export(h: Host, backend: Backend, k: Keys, env: Option<Secret>, minted: Secret, opens: bool, token: string)
    : (Host, Outcome<string>)
  {
    var (w, key) := LoadOrCreate(h.world, backend, k, env, minted);
    match key
    case Err(e) => (Host(w, h.pending), Err(e))
    case Crashed => (Host(w, None), Crashed)
    case Ok(_) => if opens then (Host(w, Some(token)), Ok(token)) else (Host(w, h.pending), Err(BadKey))
  }

  function Confirm(h: Host, token: string): (Host, Outcome<()>) {
    if h.pending != Some(token) then (h, Err(NoBackupYet))
    else
      var (w, r) := SetConfirmed(h.world, true);
      (Host(w, None), r)
  }

  /** A token outlives an operation that failed, not one that succeeded or took the process with it. */
  function After<T>(w: World, pending: Option<string>, r: Outcome<T>): (Host, Outcome<T>) {
    (Host(w, if r.Err? then pending else None), r)
  }

  function ImportCommand(h: Host, backend: Backend, k: Keys, secret: Option<Secret>): (Host, Outcome<string>) {
    var (w, r) := Import(h.world, backend, k, secret);
    After(w, h.pending, r)
  }

  function WipeCommand(h: Host): (Host, Outcome<()>) {
    var (w, r) := WipeKey(h.world);
    After(w, h.pending, r)
  }

  // --- the same, in place -----------------------------------------------------

  class HostState {
    const store: SecretStore
    const k: Keys
    /** Handed out by the last export, spent by a confirmation. */
    var pendingExport: Option<string>

    constructor (store: SecretStore, k: Keys)
      ensures this.store == store && this.k == k && Here() == Host(store.Here(), None)
    {
      this.store, this.k, pendingExport := store, k, None;
    }

    function Here(): Host
      reads this, store
    {
      Host(store.Here(), pendingExport)
    }

    method RunExport(env: Option<Secret>, minted: Secret, opens: bool, token: string) returns (r: Outcome<string>)
      modifies this, store
      ensures (Here(), r) == Export(old(Here()), store.backend, k, env, minted, opens, token)
    {
      var key := LoadOrCreateIn(store, k, env, minted);
      if key.Crashed? {
        pendingExport := None;
        return Crashed;
      }
      if key.Err? {
        return Err(key.error);
      }
      if !opens {
        return Err(BadKey);
      }
      pendingExport := Some(token);
      r := Ok(token);
    }

    method RunConfirm(token: string) returns (r: Outcome<()>)
      modifies this, store
      ensures (Here(), r) == Confirm(old(Here()), token)
    {
      if pendingExport != Some(token) {
        return Err(NoBackupYet);
      }
      // gone before the write, so `TokensAreSpent` holds whatever the write meets
      pendingExport := None;
      r := store.SetConfirmation(true);
    }

    method RunImport(secret: Option<Secret>) returns (r: Outcome<string>)
      modifies this, store
      ensures (Here(), r) == ImportCommand(old(Here()), store.backend, k, secret)
    {
      r := ImportIn(store, k, secret);
      if !r.Err? {
        pendingExport := None;
      }
    }

    method RunWipe() returns (r: Outcome<()>)
      modifies this, store
      ensures (Here(), r) == WipeCommand(old(Here()))
    {
      r := WipeIn(store);
      if !r.Err? {
        pendingExport := None;
      }
    }
  }

  // --- whole runs -----------------------------------------------------------------

  /** What an onlooker writes down: the stored identity changing, a key exported, that export's
      token handed back. */
  datatype Note = Changed | Exported(token: string, secret: Secret) | Confirmed(token: string)

  datatype Watched = Watched(host: Host, log: seq<Note>)

  function Perform(h: Host, backend: Backend, k: Keys, c: Command): (Host, Outcome<()>) {
    match c
    case ExportBackup(env, minted, opens, token) =>
      var (h', r) := Export(h, backend, k, env, minted, opens, token);
      (h', Machine.Failed(r))
    case ConfirmBackup(token) => Confirm(h, token)
    case ImportIdentity(secret) => var (h', r) := ImportCommand(h, backend, k, secret); (h', Machine.Failed(r))
    case WipeIdentity => WipeCommand(h)
    case Other(op) => (Host(Do(h.world, backend, k, op), h.pending), Ok(()))
    case Restart => (Host(h.world, None), Ok(()))
  }

  function Watch(s: Watched, backend: Backend, k: Keys, c: Command, fates: seq<Fate>): Watched {
    var w := s.host.world.(script := fates);
    var (h, r) := Perform(s.host.(world := w), backend, k, c);
    var changed := if Held(h.world) != Held(s.host.world) then [Changed] else [];
    var done :=
      if c.ExportBackup? && r.Ok? then [Exported(c.token, LoadOrCreate(w, backend, k, c.env, c.minted).1.value.secret)]
      else if c.ConfirmBackup? && s.host.pending == Some(c.token) then [Confirmed(c.token)]
      else [];
    Watched(h, s.log + changed + done)
  }

  function WatchAll(s: Watched, backend: Backend, k: Keys, run: seq<(Command, seq<Fate>)>): Watched {
    if run == [] then s
    else
      var last := |run| - 1;
      Watch(WatchAll(s, backend, k, run[..last]), backend, k, run[last].0, run[last].1)
  }

  /** `secret` was exported at `i`, and the stored identity has stood unchanged since. */
  ghost predicate ExportedAt(log: seq<Note>, i: nat, token: string, secret: Secret) {
    i < |log| && log[i] == Exported(token, secret) && forall m :: i < m < |log| ==> log[m] != Changed
  }

  ghost predicate ExportConfirmed(log: seq<Note>, i: nat, j: nat, token: string, secret: Secret) {
    ExportedAt(log, i, token, secret) && i < j < |log| && log[j] == Confirmed(token)
  }

  /** Exported, and that export's token confirmed, since the identity was stored. */
  ghost predicate BackedUp(log: seq<Note>, secret: Secret) {
    exists i, j, token :: ExportConfirmed(log, i, j, token, secret)
  }

  ghost predicate Guarded(s: Watched, k: Keys) {
    var held := Identified(s.host.world, k);
    && (s.host.world.confirmed ==> held.Some? && BackedUp(s.log, held.value))
    && (s.host.pending.Some? ==> held.Some? && exists i :: ExportedAt(s.log, i, s.host.pending.value, held.value))
  }

  /** The runs the gate is promised for: an import whose key was written has its later steps
      go through, a wipe that removed the key has the confirmation removed, an export meets no key
      in the environment but the one stored, and nobody deletes the entry from outside; everything
      else may fail or die anywhere. */
  predicate Allowed(k: Keys, w: World, c: Command, fates: seq<Fate>) {
    match c
    case ImportIdentity(_) =>
      Honest(fates) && (FateOf(fates, 0).Dies? || Refused(FateOf(fates, 1)) || !RefusedAfterWrite(fates))
    case WipeIdentity =>
      Honest(fates) && (FateOf(fates, 0).Dies? || Refused(FateOf(fates, 1)) || !Refused(FateOf(fates, 2)))
    case ExportBackup(env, minted, _, _) =>
      Honest(fates) && k.usable(minted) && (env.None? || Identified(w, k) == env)
    case Other(op) => Fair(k, Event(op, fates)) && !op.ImportKey? && !op.WipeOut? && !op.ConfirmStored?
    case _ => Honest(fates)
  }

  /** Notes that do not report a change leave what was exported and confirmed standing. */
  lemma StillStands(log: seq<Note>, more: seq<Note>)
    requires Changed !in more
    ensures forall i, token, secret :: ExportedAt(log, i, token, secret) ==> ExportedAt(log + more, i, token, secret)
    ensures forall secret :: BackedUp(log, secret) ==> BackedUp(log + more, secret)
  {
    forall i: nat, token, secret | ExportedAt(log, i, token, secret) ensures ExportedAt(log + more, i, token, secret) {
      forall m | i < m < |log + more| ensures (log + more)[m] != Changed {
        if m >= |log| { assert (log + more)[m] == more[m - |log|]; }
      }
    }
    forall secret | BackedUp(log, secret) ensures BackedUp(log + more, secret) {
      var i, j, token :| ExportConfirmed(log, i, j, token, secret);
      assert ExportConfirmed(log + more, i, j, token, secret);
    }
  }

  /** A host that kept its identity, and neither a confirmation nor a token it did not have. */
  lemma StaysGuarded(s: Watched, h: Host, more: seq<Note>, k: Keys)
    requires Guarded(s, k) && Changed !in more
    requires Held(h.world) == Held(s.host.world)
    requires h.world.confirmed ==> s.host.world.confirmed
    requires h.pending.Some? ==> h.pending == s.host.pending
    ensures Guarded(Watched(h, s.log + more), k)
  {
    StillStands(s.log, more);
    if h.pending.Some? {
      var i :| ExportedAt(s.log, i, h.pending.value, Identified(s.host.world, k).value);
      assert ExportedAt(s.log + more, i, h.pending.value, Identified(h.world, k).value);
    }
  }

  lemma ExportGuards(s: Watched, backend: Backend, k: Keys, c: Command, fates: seq<Fate>)
    requires Sound(k) && Guarded(s, k) && Allowed(k, s.host.world, c, fates) && c.ExportBackup?
    ensures Guarded(Watch(s, backend, k, c, fates), k)
  {
    var v := s.host.world.(script := fates);
    var (w, key) := LoadOrCreate(v, backend, k, c.env, c.minted);
    GetKeyKeeps(v, backend, k, c.env, c.minted);
    if c.env.None? { LoadHeals(v, backend, k, c.minted); }
    var t := Watch(s, backend, k, c, fates);
    if key.Ok? && c.opens {
      var done := Exported(c.token, key.value.secret);
      assert Identified(w, k) == Some(key.value.secret);
      assert t.log[|t.log| - 1] == done;
      assert ExportedAt(t.log, |t.log| - 1, c.token, key.value.secret);
      if w.confirmed {
        assert t.log == s.log + [done];
        StillStands(s.log, [done]);
      }
    } else if Held(w) == Held(v) {
      assert t.log == s.log + [];
      StaysGuarded(s, t.host, [], k);
    }
  }

  lemma ConfirmGuards(s: Watched, backend: Backend, k: Keys, c: Command, fates: seq<Fate>)
    requires Guarded(s, k) && c.ConfirmBackup?
    ensures Guarded(Watch(s, backend, k, c, fates), k)
  {
    var t := Watch(s, backend, k, c, fates);
    var (h, r) := Confirm(s.host.(world := s.host.world.(script := fates)), c.token);
    if h.world.confirmed && !s.host.world.confirmed {
      var secret := Identified(s.host.world, k).value;
      var i :| ExportedAt(s.log, i, c.token, secret);
      assert t.log == s.log + [Confirmed(c.token)];
      StillStands(s.log, [Confirmed(c.token)]);
      assert ExportConfirmed(t.log, i, |s.log|, c.token, secret);
    } else {
      var more := if s.host.pending == Some(c.token) then [Confirmed(c.token)] else [];
      assert t.log == s.log + more;
      StaysGuarded(s, h, more, k);
    }
  }

  lemma OtherGuards(s: Watched, backend: Backend, k: Keys, c: Command, fates: seq<Fate>)
    requires Sound(k) && Guarded(s, k) && Allowed(k, s.host.world, c, fates) && c.Other?
    ensures Guarded(Watch(s, backend, k, c, fates), k)
  {
    var t := Watch(s, backend, k, c, fates);
    OtherKeepsConfirmation(s.host.world, backend, k, Event(c.op, fates));
    if Held(s.host.world).Some? {
      StepKeepsIdentity(s.host.world, backend, k, Event(c.op, fates));
      assert t.log == s.log + [];
      StaysGuarded(s, t.host, [], k);
    }
  }

  lemma OtherKeepsConfirmation(w: World, backend: Backend, k: Keys, e: Event)
    requires Sound(k) && Fair(k, e) && !e.op.ImportKey? && !e.op.WipeOut? && !e.op.ConfirmStored?
    ensures Step(w, backend, k, e).confirmed == w.confirmed
  {
    var v := w.(script := e.fates);
    if IsMachineOp(e.op) {
      MachineTouchesItsOwn(w, backend, k, e);
    } else {
      match e.op
      case GetKey(env, minted) => GetKeyKeeps(v, backend, k, env, minted);
      case ProvisionAgents(env, minted, server, office, fleet) =>
        GetKeyKeeps(v, backend, k, env, minted);
        var (w1, owner) := LoadOrCreate(v, backend, k, env, minted);
        if owner.Ok? { ProvisionKeeps(w1, backend, k, server, office, Agents(fleet), owner.value, NewKeys(fleet)); }
      case _ =>
    }
  }

  /** An allowed import ends with the confirmation cleared and the token gone, or with the identity,
      the confirmation and the token as they were. */
  lemma ImportGuards(s: Watched, backend: Backend, k: Keys, c: Command, fates: seq<Fate>)
    requires Guarded(s, k) && Allowed(k, s.host.world, c, fates) && c.ImportIdentity?
    ensures Guarded(Watch(s, backend, k, c, fates), k)
  {
    var v := s.host.world.(script := fates);
    var (w, r) := Import(v, backend, k, c.secret);
    ImportSettles(v, backend, k, c.secret);
    var t := Watch(s, backend, k, c, fates);
    if !r.Ok? {
      assert t.log == s.log + [];
      StaysGuarded(s, t.host, [], k);
    }
  }

  /** The same of the store alone, confirmed or not. */
  lemma ImportSettles(w: World, backend: Backend, k: Keys, secret: Option<Secret>)
    requires Honest(w.script)
    requires FateOf(w.script, 0).Dies? || Refused(FateOf(w.script, 1)) || !RefusedAfterWrite(w.script)
    ensures var (w', r) := Import(w, backend, k, secret);
            if r.Ok? then !w'.confirmed else w'.entry == w.entry && w'.confirmed == w.confirmed
  {
    LoadReads(w, backend);
    LoadTakesOne(w, backend);
    if ImportGoesOn(w, backend, k, secret) {
      var w1, slots := Load(w, backend).0, Imported(w, backend, k, secret.value);
      assert forall i: nat :: FateOf(w1.script, i) == FateOf(w.script, i + 1);
      StoreExactly(w1, backend, slots, k.npub(secret.value));
    }
    hide Load, Store;
  }

  lemma WipeGuards(s: Watched, backend: Backend, k: Keys, fates: seq<Fate>)
    requires Guarded(s, k) && Allowed(k, s.host.world, WipeIdentity, fates)
    ensures Guarded(Watch(s, backend, k, WipeIdentity, fates), k)
  {
    var v, t := s.host.world.(script := fates), Watch(s, backend, k, WipeIdentity, fates);
    WipeExactly(v);
    if t.host.world.entry == v.entry {
      assert t.log == s.log + [];
      StaysGuarded(s, t.host, [], k);
    }
    hide WipeKey;
  }

  lemma WatchGuards(s: Watched, backend: Backend, k: Keys, c: Command, fates: seq<Fate>)
    requires Sound(k) && Guarded(s, k) && Allowed(k, s.host.world, c, fates)
    ensures Guarded(Watch(s, backend, k, c, fates), k)
  {
    match c
    case ExportBackup(_, _, _, _) => ExportGuards(s, backend, k, c, fates);
    case ConfirmBackup(_) => ConfirmGuards(s, backend, k, c, fates);
    case ImportIdentity(_) => ImportGuards(s, backend, k, c, fates);
    case WipeIdentity => WipeGuards(s, backend, k, fates);
    case Other(_) => OtherGuards(s, backend, k, c, fates);
    case Restart =>
      var t := Watch(s, backend, k, c, fates);
      assert t.log == s.log + [];
      StaysGuarded(s, t.host, [], k);
  }

  /** Every command of the run is allowed where the run has come to. */
  predicate AllowedRun(s: Watched, backend: Backend, k: Keys, run: seq<(Command, seq<Fate>)>) {
    run == []
    || var last := |run| - 1;
       && AllowedRun(s, backend, k, run[..last])
       && Allowed(k, WatchAll(s, backend, k, run[..last]).host.world, run[last].0, run[last].1)
  }

  lemma {:induction false} RunGuards(s: Watched, backend: Backend, k: Keys, run: seq<(Command, seq<Fate>)>)
    requires Sound(k) && Guarded(s, k) && AllowedRun(s, backend, k, run)
    ensures Guarded(WatchAll(s, backend, k, run), k)
  {
    if run == [] {
    } else {
      var last := |run| - 1;
      RunGuards(s, backend, k, run[..last]);
      WatchGuards(WatchAll(s, backend, k, run[..last]), backend, k, run[last].0, run[last].1);
    }
  }

  /** After any such run from an unconfirmed start, a wipe succeeds only if the identity
      stored now was itself exported, and that export confirmed, since it was stored. */
  lemma WipeNeedsABackup(w: World, backend: Backend, k: Keys, run: seq<(Command, seq<Fate>)>)
    requires Sound(k) && !w.confirmed && AllowedRun(Watched(Host(w, None), []), backend, k, run)
    ensures var s := WatchAll(Watched(Host(w, None), []), backend, k, run);
            WipeCommand(s.host).1.Ok? ==>
              Identified(s.host.world, k).Some? && BackedUp(s.log, Identified(s.host.world, k).value)
  {
    RunGuards(Watched(Host(w, None), []), backend, k, run);
  }

  /** A key in the environment is what an export exports. With another than the one stored there,
      export and confirmation open the gate for a key nobody exported, every step working. */
  lemma EnvironmentKeyOpensTheGate(w: World, backend: Backend, k: Keys, env: Secret, minted: Secret, token: string)
    requires !w.confirmed && Identified(w, k).Some? && Identified(w, k) != Some(env)
    ensures var s0 := Watched(Host(w, None), []);
            var s1 := Watch(s0, backend, k, ExportBackup(Some(env), minted, true, token), []);
            var s2 := Watch(s1, backend, k, ConfirmBackup(token), []);
            && Identified(s2.host.world, k) == Identified(w, k)
            && WipeCommand(s2.host).1.Ok? && !BackedUp(s2.log, Identified(w, k).value)
  {
    var s0 := Watched(Host(w, None), []);
    var s1 := Watch(s0, backend, k, ExportBackup(Some(env), minted, true, token), []);
    assert s1.log == [Exported(token, env)];
    var s2 := Watch(s1, backend, k, ConfirmBackup(token), []);
    assert s2.log == [Exported(token, env), Confirmed(token)];
    WipeExactly(s2.host.world);
  }

  /** Nor does the gate know of its files deleted from outside: with entry and marker gone a key is
      minted as on a first run, under the confirmation of the one before. */
  lemma DeletedEntryOpensTheGate(w: World, backend: Backend, k: Keys, minted: Secret)
    requires Sound(k) && k.usable(minted) && w.confirmed
    ensures var gone := Step(Step(w, backend, k, Event(EntryDeleted, [])), backend, k, Event(MarkerDeleted, []));
            var w' := Step(gone, backend, k, Event(GetKey(None, minted), []));
            Identified(w', k) == Some(minted) && WipeKey(w').1.Ok?
  {
    var gone := Step(Step(w, backend, k, Event(EntryDeleted, [])), backend, k, Event(MarkerDeleted, []));
    assert gone == World(Absent, None, true, []);
    var slots := map[IDENTITY_SLOT := k.nsec(minted)];
    assert map[][IDENTITY_SLOT := k.nsec(minted)] == slots;
    var w' := Step(gone, backend, k, Event(GetKey(None, minted), []));
    assert w' == World(Holding(slots), Some(k.npub(minted)), true, []);
    WipeExactly(w');
  }

  /** Where the promise ends: an import cut off after its store and before its last
      step has changed the identity and left the old confirmation, and the next wipe goes through. */
  lemma CutImportLeavesTheGateOpen(w: World, backend: Backend, k: Keys, secret: Secret)
    requires w.confirmed && w.entry.Holding? && k.usable(secret)
    requires w.script == [Works, Works, Works, Works, Dies(None)]
    ensures var (w', r) := Import(w, backend, k, Some(secret));
            && r.Crashed? && Held(w') == Some(k.nsec(secret)) && w'.confirmed
            && WipeKey(w'.(script := [])).1.Ok?
  {
    var slots := w.entry.slots[IDENTITY_SLOT := k.nsec(secret)];
    var w1 := Load(w, backend).0;
    assert w1.script == [Works, Works, Works, Dies(None)];
    var w2 := WriteRaw(w1, backend, slots).0;
    assert w2.script == [Works, Works, Dies(None)];
    var w3 := ReadRaw(w2, backend).0;
    assert w3.script == [Works, Dies(None)];
    var w4 := WriteMarker(w3, k.npub(secret)).0;
    assert w4.script == [Dies(None)];
  }

  /** Likewise a wipe whose last removal is refused: it reports success, and the
      confirmation waits for the next identity. */
  lemma RefusedClearOutlivesTheWipe(w: World)
    requires w.confirmed && w.script == [Works, Works, Fails(None)]
    ensures var (w', r) := WipeKey(w);
            r.Ok? && w'.entry.Absent? && w'.marker.None? && w'.confirmed
  {
    var w1 := RemoveMarker(w).0;
    assert w1.script == [Works, Fails(None)];
    var w2 := RemoveEntry(w1).0;
    assert w2.script == [Fails(None)];
  }

  lemma ReplaceClears(w: World, backend: Backend, slots: Slots, npub: string)
    requires w.confirmed
    ensures var (w', r) := Replace(w, backend, slots, npub);
            !w'.confirmed <==> r.Ok?
  {
    var (w1, stored) := Store(w, backend, slots, npub);
    assert w1.confirmed;
  }

  /** On any keychain, an import over a confirmed identity that leaves the confirmation standing
      does not report success, and one that reports it leaves none; `OperationLaws.ImportExactly`
      says by its steps which it is. */
  lemma ImportClearsExactlyOnSuccess(w: World, backend: Backend, k: Keys, secret: Option<Secret>)
    requires w.confirmed
    ensures var (w', r) := Import(w, backend, k, secret);
            !w'.confirmed <==> r.Ok?
  {
    LoadReads(w, backend);
    var (w1, r) := Load(w, backend);
    if secret.Some? {
      ReplaceClears(w1, backend, (if r.Ok? then r.value else map[])[IDENTITY_SLOT := k.nsec(secret.value)],
          k.npub(secret.value));
    }
  }

  // --- the gate opens -----------------------------------------------------------------

  /** An export succeeds exactly if the blob opens again and there is a key to export: the environment's,
      or the one stored where that can be loaded. Then its token is the pending one; an error leaves the
      one before it standing. */
  lemma ExportExactly(h: Host, backend: Backend, k: Keys, env: Option<Secret>, minted: Secret, opens: bool,
                      token: string)
    requires Honest(h.world.script) && (env.Some? || Identified(h.world, k).Some?)
    ensures var (h', r) := Export(h, backend, k, env, minted, opens, token);
            var fates := h.world.script;
            && (r.Ok? <==>
                  opens
                  && (env.None? ==>
                        !Refused(FateOf(fates, 0))
                        && (NamesItsKey(h.world, k) || !Refused(FateOf(fates, 1)))))
            && (r.Ok? ==> r.value == token && h'.pending == Some(token))
            && (r.Err? ==> h'.pending == h.pending)
            && h'.world.entry == h.world.entry && h'.world.confirmed == h.world.confirmed
  {
    if env.None? { LoadExactly(h.world, backend, k, minted); }
    LoadConfirmsNothing(h.world, backend, k, env, minted);
    hide LoadOrCreate;
  }

  lemma LoadConfirmsNothing(w: World, backend: Backend, k: Keys, env: Option<Secret>, minted: Secret)
    ensures LoadOrCreate(w, backend, k, env, minted).0.confirmed == w.confirmed
    ensures env.Some? ==> LoadOrCreate(w, backend, k, env, minted) == (w, Ok(HeldKey(env.value, true)))
  {
    LoadReads(w, backend);
    var (w1, r) := Load(w, backend);
    hide Load;
  }

  /** A confirmation succeeds exactly for the pending token and a write that works; and the gate stands
      open after it exactly if it did before, or the token was right and the file came to be. */
  lemma ConfirmExactly(h: Host, token: string)
    ensures var (h', r) := Confirm(h, token);
            && (r.Ok? <==> h.pending == Some(token) && !Refused(Fated(h.world)))
            && (h'.world.confirmed <==>
                  h.world.confirmed
                  || (h.pending == Some(token) && (Refused(Fated(h.world)) ==> Fated(h.world).wrote.Some?)))
            && h'.world.entry == h.world.entry && h'.world.marker == h.world.marker
  {
  }

  /** Exported, confirmed, wiped, with every step working: nothing is left of the key. */
  lemma BackedUpKeyIsWiped(w: World, backend: Backend, k: Keys, s: Secret, minted: Secret, token: string)
    requires Identified(w, k) == Some(s) && !w.confirmed
    ensures var s0 := Watched(Host(w, None), []);
            var s1 := Watch(s0, backend, k, ExportBackup(None, minted, true, token), []);
            var s2 := Watch(s1, backend, k, ConfirmBackup(token), []);
            var s3 := Watch(s2, backend, k, WipeIdentity, []);
            && s3.host == Host(World(Absent, None, false, []), None)
            && s3.log == [Exported(token, s), Confirmed(token), Changed]
  {
    var s0 := Watched(Host(w, None), []);
    var v := w.(script := []);
    ExportExactly(Host(v, None), backend, k, None, minted, true, token);
    LoadExactly(v, backend, k, minted);
    hide LoadOrCreate;
    var s1 := Watch(s0, backend, k, ExportBackup(None, minted, true, token), []);
    assert s1.log == [Exported(token, s)] && s1.host.pending == Some(token) && !s1.host.world.confirmed;
    var s2 := Watch(s1, backend, k, ConfirmBackup(token), []);
    assert s2.log == [Exported(token, s), Confirmed(token)];
    var s3 := Watch(s2, backend, k, WipeIdentity, []);
    WipeExactly(s2.host.world.(script := []));
    WipeSpends(s2.host.world.(script := []));
    hide WipeKey;
    assert s3.log == s2.log + [Changed];
  }

  lemma WipeSpends(w: World)
    requires w.script == []
    ensures WipeKey(w).0.script == []
  {
  }

  // --- tokens -----------------------------------------------------------------------

  /** After an export that succeeds its token is the one that is not turned away, and the only one. */
  lemma LastExportConfirms(h: Host, backend: Backend, k: Keys, env: Option<Secret>, minted: Secret, opens: bool,
                           token: string, t: string)
    ensures var (h', r) := Export(h, backend, k, env, minted, opens, token);
            r.Ok? ==> opens && (Confirm(h', t).1 == Err(NoBackupYet) <==> t != token)
  {
  }

  /** A token handed back is spent whatever the write met: after it none is accepted, itself included. */
  lemma TokensAreSpent(h: Host, token: string, t: string)
    requires Confirm(h, token).1 != Err(NoBackupYet)
    ensures Confirm(Confirm(h, token).0, t) == (Confirm(h, token).0, Err(NoBackupYet))
  {
  }

  /** An import or a wipe that succeeds turns every outstanding token away. */
  lemma ReplacedTokensAreDead(h: Host, backend: Backend, k: Keys, secret: Option<Secret>, t: string)
    ensures var (h', r) := ImportCommand(h, backend, k, secret);
            r.Ok? ==> Confirm(h', t).1 == Err(NoBackupYet)
    ensures var (h', r) := WipeCommand(h);
            r.Ok? ==> Confirm(h', t).1 == Err(NoBackupYet)
  {
    hide Import, WipeKey;
  }

  /** A confirmation that does not report success opens the gate all the same exactly when its token
      was the right one and the file came to be before the write failed. */
  lemma FailedConfirmMayOpenTheGate(h: Host, token: string)
    requires !h.world.confirmed && !Confirm(h, token).1.Ok?
    ensures Confirm(h, token).0.world.confirmed <==>
            h.pending == Some(token) && Refused(Fated(h.world)) && Fated(h.world).wrote.Some?
  {
  }

  /** What becomes of an outstanding token when an import has written its key: it is kept exactly when
      the first step refused after that is refused with an error, the process living on. */
  lemma ImportTokenExactly(h: Host, backend: Backend, k: Keys, secret: Option<Secret>)
    requires Honest(h.world.script) && h.pending.Some? && ImportGoesOn(h.world, backend, k, secret)
    requires !Refused(FateOf(h.world.script, 1))
    ensures var fates, h' := h.world.script, ImportCommand(h, backend, k, secret).0;
            h'.pending == h.pending <==>
            if Refused(FateOf(fates, 2)) then FateOf(fates, 2).Fails?
            else if Refused(FateOf(fates, 3)) then FateOf(fates, 3).Fails?
            else FateOf(fates, 4).Fails? && h.world.confirmed
  {
    LoadReads(h.world, backend);
    LoadTakesOne(h.world, backend);
    var w1 := Load(h.world, backend).0;
    var slots, npub := Imported(h.world, backend, k, secret.value), k.npub(secret.value);
    assert forall i: nat :: FateOf(w1.script, i) == FateOf(h.world.script, i + 1);
    StoreExactly(w1, backend, slots, npub);
    StoreCrashes(w1, backend, slots, npub);
    hide Load, Store;
  }

  lemma StoreCrashes(w: World, backend: Backend, slots: Slots, npub: string)
    requires Honest(w.script) && !Refused(FateOf(w.script, 0))
    ensures Store(w, backend, slots, npub).1.Crashed? <==>
            FateOf(w.script, 1).Dies? || (!Refused(FateOf(w.script, 1)) && FateOf(w.script, 2).Dies?)
  {
    var (w1, wrote) := WriteRaw(w, backend, slots);
    assert Fated(w1) == FateOf(w.script, 1);
    var (w2, raw) := ReadRaw(w1, backend);
    assert Fated(w2) == FateOf(w.script, 2);
  }

  /** An import that reports an error after its write has put the new key in place and left the old
      export's token outstanding: that token then opens the gate for a key nobody exported. */
  lemma FailedImportLeavesTheToken(h: Host, backend: Backend, k: Keys, secret: Secret, token: string)
    requires h.pending == Some(token) && k.usable(secret) && h.world.entry.Holding?
    requires h.world.script == [Works, Works, Works, Fails(None)]
    ensures var (h', r) := ImportCommand(h, backend, k, Some(secret));
            && r == Err(Io) && Held(h'.world) == Some(k.nsec(secret))
            && Confirm(h', token).1.Ok? && Confirm(h', token).0.world.confirmed
  {
    var slots := h.world.entry.slots[IDENTITY_SLOT := k.nsec(secret)];
    var w1 := Load(h.world, backend).0;
    assert w1.script == [Works, Works, Fails(None)];
    var w2 := WriteRaw(w1, backend, slots).0;
    assert w2.script == [Works, Fails(None)];
    var w3 := ReadRaw(w2, backend).0;
    assert w3.script == [Fails(None)];
  }
}
