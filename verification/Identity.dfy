/** The key this machine signs with: loaded, minted on a genuine first run,
    imported, exported and wiped. */
module Identity {
  import opened Text
  import opened Secrets

  datatype Secret = Secret(scalar: nat)

  /** The encodings, kept abstract: reading an nsec, whether a scalar can sign, and the three printed forms. */
  datatype Keys = Keys(decode: string -> Option<Secret>, usable: Secret -> bool,
                       nsec: Secret -> string, npub: Secret -> string, pubHex: Secret -> string)

  ghost predicate Sound(k: Keys) {
    && (forall s :: k.decode(k.nsec(s)) == Some(s))
    && (forall s :: k.npub(s) != "")
  }

  datatype HeldKey = HeldKey(secret: Secret, ephemeral: bool)
  datatype State = NoKey | Ready | KeyLocked

  /** The signing secret in a slot, if the slot can be read as one. */
  function Decoded(k: Keys, text: string): Option<Secret> {
    match k.decode(text)
    case Some(s) => if k.usable(s) then Some(s) else None
    case None => None
  }

  function StateWith(w: World, backend: Backend, env: Option<Secret>): (World, Outcome<State>) {
    if env.Some? then (w, Ok(Ready))
    else
      var (w1, r) := Load(w, backend);
      match r
      case Ok(slots) => (w1, Ok(if IDENTITY_SLOT in slots then Ready else NoKey))
      case Err(Locked) => (w1, Ok(KeyLocked))
      case Err(_) => (w1, Ok(if Marker(w1).Some? then KeyLocked else NoKey))
      case Crashed => (w1, Crashed)
  }

  /** `minted` is the secret the generator would produce, should one be needed. */
  function LoadOrCreate(w: World, backend: Backend, k: Keys, env: Option<Secret>, minted: Secret)
    : (World, Outcome<HeldKey>)
  {
    if env.Some? then (w, Ok(HeldKey(env.value, true)))
    else
      var (w1, r) := Load(w, backend);
      match r
      case Err(e) => (w1, Err(e))
      case Crashed => (w1, Crashed)
      case Ok(slots) =>
        if IDENTITY_SLOT in slots then
          var secret := Decoded(k, slots[IDENTITY_SLOT]);
          if secret.None? then (w1, Err(BadKey))
          else Then(EnsureMarker(w1, k.npub(secret.value)), HeldKey(secret.value, false))
        else
          Then(Store(w1, backend, slots[IDENTITY_SLOT := k.nsec(minted)], k.npub(minted)), HeldKey(minted, false))
  }

  function Then<T>(step: (World, Outcome<()>), value: T): (World, Outcome<T>) {
    match step.1
    case Ok(_) => (step.0, Ok(value))
    case Err(e) => (step.0, Err(e))
    case Crashed => (step.0, Crashed)
  }

  /** Store the imported identity; then the confirmation, which belonged to the one before, is cleared. */
  function Replace(w: World, backend: Backend, slots: Slots, npub: string): (World, Outcome<()>) {
    var (w1, stored) := Store(w, backend, slots, npub);
    if stored.Ok? then SetConfirmed(w1, false) else (w1, stored)
  }

  /** `secret`: what the pasted text decoded or decrypted to. Past a locked store by design. */
  function Import(w: World, backend: Backend, k: Keys, secret: Option<Secret>): (World, Outcome<string>) {
    if secret.None? || !k.usable(secret.value) then (w, Err(BadKey))
    else
      var (w1, r) := Load(w, backend);
      if r.Crashed? then (w1, Crashed)
      else if r.Err? && r.error != Locked then (w1, Err(r.error))
      else
        var slots := if r.Ok? then r.value else map[];
        var npub := k.npub(secret.value);
        Then(Replace(w1, backend, slots[IDENTITY_SLOT := k.nsec(secret.value)], npub), npub)
  }

  function WipeKey(w: World): (World, Outcome<()>) {
    if !w.confirmed then (w, Err(NoBackupYet)) else Wipe(w)
  }

  // --- the same, in place -----------------------------------------------------

  method StateIn(store: SecretStore, env: Option<Secret>) returns (r: Outcome<State>)
    modifies store
    ensures (store.Here(), r) == StateWith(old(store.Here()), store.backend, env)
  {
    if env.Some? {
      return Ok(Ready);
    }
    var loaded := store.LoadSlots();
    match loaded
    case Ok(slots) => r := Ok(if IDENTITY_SLOT in slots then Ready else NoKey);
    case Err(e) => r := Ok(if e == Locked || Marker(store.Here()).Some? then KeyLocked else NoKey);
    case Crashed => r := Crashed;
  }

  method LoadOrCreateIn(store: SecretStore, k: Keys, env: Option<Secret>, minted: Secret) returns (r: Outcome<HeldKey>)
    modifies store
    ensures (store.Here(), r) == LoadOrCreate(old(store.Here()), store.backend, k, env, minted)
  {
    if env.Some? {
      return Ok(HeldKey(env.value, true));
    }
    var loaded := store.LoadSlots();
    if !loaded.Ok? {
      return if loaded.Err? then Err(loaded.error) else Crashed;
    }
    var blob := loaded.value;
    var step: Outcome<()>;
    if IDENTITY_SLOT in blob {
      var secret := Decoded(k, blob[IDENTITY_SLOT]);
      if secret.None? {
        return Err(BadKey);
      }
      // the stored key decides what the marker should say
      step := store.HealMarker(k.npub(secret.value));
      return Then((store.Here(), step), HeldKey(secret.value, false)).1;
    }
    blob := blob[IDENTITY_SLOT := k.nsec(minted)];
    step := store.StoreSlots(blob, k.npub(minted));
    return Then((store.Here(), step), HeldKey(minted, false)).1;
  }

  method ImportIn(store: SecretStore, k: Keys, secret: Option<Secret>) returns (r: Outcome<string>)
    modifies store
    ensures (store.Here(), r) == Import(old(store.Here()), store.backend, k, secret)
  {
    if secret.None? || !k.usable(secret.value) {
      return Err(BadKey);
    }
    var loaded := store.LoadSlots();
    var blob: Slots;
    match loaded {
      case Ok(slots) => blob := slots;
      case Err(e) =>
        if e != Locked {
          return Err(e);
        }
        blob := map[];
      case Crashed => return Crashed;
    }
    blob := blob[IDENTITY_SLOT := k.nsec(secret.value)];
    var step := store.StoreSlots(blob, k.npub(secret.value));
    if step.Ok? {
      // last step: `KeyStoreLaws` and `BackupGate` say what a refusal here leaves behind
      step := store.SetConfirmation(false);
    }
    return Then((store.Here(), step), k.npub(secret.value)).1;
  }

  method WipeIn(store: SecretStore) returns (r: Outcome<()>)
    modifies store
    ensures (store.Here(), r) == WipeKey(old(store.Here()))
  {
    if !store.confirmed {
      return Err(NoBackupYet);
    }
    r := store.WipeAll();
  }
}
