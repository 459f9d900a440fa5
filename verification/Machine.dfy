/** This machine's registrations: a token and a name per server, kept as slots
    beside the identity. */
module Machine {
  import opened Secrets
  import opened Identity

  const HOST_TOKEN_SLOT := "host-token"
  const LABEL_SLOT := "machine-label"

  function TokenSlot(server: string): string {
    HOST_TOKEN_SLOT + ":" + server
  }

  function LabelSlot(server: string): string {
    LABEL_SLOT + ":" + server
  }

  /** Write slots back under the identity they hold. */
  function Rewrite(w: World, backend: Backend, k: Keys, slots: Slots, existing: string): (World, Outcome<()>) {
    var secret := Decoded(k, existing);
    if secret.None? then (w, Err(BadKey)) else Store(w, backend, slots, k.npub(secret.value))
  }

  /** The slots after a bare pre-servers registration is filed under `server`; never over one already there. */
  function Migrated(slots: Slots, server: string): Slots {
    var rest := slots - {HOST_TOKEN_SLOT, LABEL_SLOT};
    var withToken := if HOST_TOKEN_SLOT in slots && TokenSlot(server) !in rest
                     then rest[TokenSlot(server) := slots[HOST_TOKEN_SLOT]] else rest;
    if LABEL_SLOT in slots && LabelSlot(server) !in withToken
    then withToken[LabelSlot(server) := slots[LABEL_SLOT]] else withToken
  }

  function MigrateTo(w: World, backend: Backend, k: Keys, server: string): (World, Outcome<()>) {
    var (w1, r) := Load(w, backend);
    if !r.Ok? then Then((w1, Failed(r)), ())
    else if HOST_TOKEN_SLOT !in r.value && LABEL_SLOT !in r.value then (w1, Ok(()))
    else
      var slots := Migrated(r.value, server);
      if IDENTITY_SLOT !in slots then (w1, Ok(())) else Rewrite(w1, backend, k, slots, slots[IDENTITY_SLOT])
  }

  function Failed<T>(r: Outcome<T>): Outcome<()> {
    match r
    case Ok(_) => Ok(())
    case Err(e) => Err(e)
    case Crashed => Crashed
  }

  /** `token` and `name` are given without surrounding spaces. */
  function Remember(w: World, backend: Backend, k: Keys, server: string, token: string, name: string)
    : (World, Outcome<()>)
  {
    if token == "" then (w, Err(EmptyToken))
    else if name == "" then (w, Err(EmptyLabel))
    else
      var (w1, r) := Load(w, backend);
      if !r.Ok? then (w1, Failed(r))
      else if IDENTITY_SLOT !in r.value then (w1, Err(NoIdentityYet))
      else Rewrite(w1, backend, k, r.value[TokenSlot(server) := token][LabelSlot(server) := name],
          r.value[IDENTITY_SLOT])
  }

  /** Drop the token, and the name too unless it is to be kept as the way back. */
  function Forget(w: World, backend: Backend, k: Keys, server: string, keepLabel: bool): (World, Outcome<()>) {
    var (w1, r) := Load(w, backend);
    if !r.Ok? then (w1, Failed(r))
    else if IDENTITY_SLOT !in r.value then (w1, Ok(()))
    else
      var dropped := {TokenSlot(server)} + if keepLabel then {} else {LabelSlot(server)};
      if dropped !! r.value.Keys then (w1, Ok(()))
      else Rewrite(w1, backend, k, r.value - dropped, r.value[IDENTITY_SLOT])
  }

  // --- the same, in place -----------------------------------------------------

  method RewriteIn(store: SecretStore, k: Keys, slots: Slots, existing: string) returns (r: Outcome<()>)
    modifies store
    ensures (store.Here(), r) == Rewrite(old(store.Here()), store.backend, k, slots, existing)
  {
    var secret := Decoded(k, existing);
    if secret.None? {
      return Err(BadKey);
    }
    r := store.StoreSlots(slots, k.npub(secret.value));
  }

  method MigrateIn(store: SecretStore, k: Keys, server: string) returns (r: Outcome<()>)
    modifies store
    ensures (store.Here(), r) == MigrateTo(old(store.Here()), store.backend, k, server)
  {
    var loaded := store.LoadSlots();
    if !loaded.Ok? {
      return Failed(loaded);
    }
    var blob := loaded.value;
    var token, name := SlotOf(blob, HOST_TOKEN_SLOT), SlotOf(blob, LABEL_SLOT);
    blob := blob - {HOST_TOKEN_SLOT, LABEL_SLOT};
    if token.None? && name.None? {
      return Ok(());
    }
    if token.Some? && TokenSlot(server) !in blob {
      blob := blob[TokenSlot(server) := token.value];
    }
    if name.Some? && LabelSlot(server) !in blob {
      blob := blob[LabelSlot(server) := name.value];
    }
    if IDENTITY_SLOT !in blob {
      return Ok(());
    }
    r := RewriteIn(store, k, blob, blob[IDENTITY_SLOT]);
  }

  method RememberIn(store: SecretStore, k: Keys, server: string, token: string, name: string) returns (r: Outcome<()>)
    modifies store
    ensures (store.Here(), r) == Remember(old(store.Here()), store.backend, k, server, token, name)
  {
    if token == "" {
      return Err(EmptyToken);
    }
    if name == "" {
      return Err(EmptyLabel);
    }
    var loaded := store.LoadSlots();
    if !loaded.Ok? {
      return Failed(loaded);
    }
    var blob := loaded.value;
    if IDENTITY_SLOT !in blob {
      return Err(NoIdentityYet);
    }
    var existing := blob[IDENTITY_SLOT];
    blob := blob[TokenSlot(server) := token];
    blob := blob[LabelSlot(server) := name];
    r := RewriteIn(store, k, blob, existing);
  }

  method ForgetIn(store: SecretStore, k: Keys, server: string, keepLabel: bool) returns (r: Outcome<()>)
    modifies store
    ensures (store.Here(), r) == Forget(old(store.Here()), store.backend, k, server, keepLabel)
  {
    var loaded := store.LoadSlots();
    if !loaded.Ok? {
      return Failed(loaded);
    }
    var blob := loaded.value;
    if IDENTITY_SLOT !in blob {
      return Ok(());
    }
    var existing := blob[IDENTITY_SLOT];
    var hadToken := TokenSlot(server) in blob;
    blob := blob - {TokenSlot(server)};
    var hadLabel := false;
    if !keepLabel {
      hadLabel := LabelSlot(server) in blob;
      blob := blob - {LabelSlot(server)};
    }
    SlotsApart(server, server);
    ghost var dropped := {TokenSlot(server)} + if keepLabel then {} else {LabelSlot(server)};
    assert blob == loaded.value - dropped;
    assert dropped !! loaded.value.Keys <==> !hadToken && !hadLabel;
    if !hadToken && !hadLabel {
      return Ok(());
    }
    r := RewriteIn(store, k, blob, existing);
  }

  // --- slot names -------------------------------------------------------------

  /** No registration's slot is the identity's, another server's, or a bare one. */
  lemma SlotsApart(a: string, b: string)
    ensures TokenSlot(a) == TokenSlot(b) <==> a == b
    ensures LabelSlot(a) == LabelSlot(b) <==> a == b
    ensures TokenSlot(a) != LabelSlot(b)
    ensures IDENTITY_SLOT !in {TokenSlot(a), LabelSlot(a), HOST_TOKEN_SLOT, LABEL_SLOT}
    ensures HOST_TOKEN_SLOT != TokenSlot(a) && LABEL_SLOT != LabelSlot(a)
    ensures HOST_TOKEN_SLOT != LabelSlot(a) && LABEL_SLOT != TokenSlot(a)
  {
    var head, other := HOST_TOKEN_SLOT + ":", LABEL_SLOT + ":";
    assert TokenSlot(a)[|head|..] == a && TokenSlot(b)[|head|..] == b;
    assert LabelSlot(a)[|other|..] == a && LabelSlot(b)[|other|..] == b;
    assert TokenSlot(a)[0] == 'h' && LabelSlot(b)[0] == 'm' && LabelSlot(a)[0] == 'm';
    assert IDENTITY_SLOT[0] == 'i';
  }
}
