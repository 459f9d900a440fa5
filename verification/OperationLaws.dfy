/** What single operations of the key store achieve, and what each refusal or cut
    of one of their steps leaves behind. */
module OperationLaws {
  import opened Text
  import opened Secrets
  import opened Identity
  import opened Machine
  import opened KeyStoreLaws

  /** The fate of the `i`th read or write of an operation; all work once the script is spent. */
  function FateOf(fates: seq<Fate>, i: nat): Fate {
    if i < |fates| then fates[i] else Works
  }

  predicate Refused(f: Fate) {
    f.Fails? || f.Dies?
  }

  // --- wiping -----------------------------------------------------------------

  /** The marker is the one step whose failing ends a wipe; a missing one cannot fail to go. */
  predicate WipeStops(w: World) {
    FateOf(w.script, 0).Dies? || (FateOf(w.script, 0).Fails? && w.marker.Some?)
  }

  /** A wipe, by the fates of its three removals: each is gone exactly if the wipe got that far and
      the removal was not refused, and success is said whenever the process lives past a gone marker. */
  lemma WipeExactly(w: World)
    ensures var (w', r) := WipeKey(w);
            && (!w.confirmed ==> w' == w && r == Err(NoBackupYet))
            && (w.confirmed ==>
                  && w'.marker == (if WipeStops(w) then w.marker else None)
                  && w'.entry == (if WipeStops(w) || Refused(FateOf(w.script, 1)) then w.entry else Absent)
                  && (w'.confirmed <==> WipeStops(w) || FateOf(w.script, 1).Dies? || Refused(FateOf(w.script, 2)))
                  && (r.Ok? <==> !WipeStops(w) && !FateOf(w.script, 1).Dies? && !FateOf(w.script, 2).Dies?))
  {
    if w.confirmed && !WipeStops(w) {
      var (w1, _) := RemoveMarker(w);
      var (w2, _) := RemoveEntry(w1);
      assert Fated(w1) == FateOf(w.script, 1);
      assert !FateOf(w.script, 1).Dies? ==> Fated(w2) == FateOf(w.script, 2);
    }
  }

  /** So a wipe that reports success leaves the confirmation for the next identity exactly when
      its last removal failed. */
  lemma WipeConfirmationExactly(w: World)
    requires w.confirmed
    ensures var (w', r) := WipeKey(w);
            r.Ok? ==> (w'.confirmed <==> FateOf(w.script, 2).Fails?)
  {
    WipeExactly(w);
  }

  // --- importing --------------------------------------------------------------

  /** An import goes on past its read: a key that can sign, and a store that was read or is locked. */
  predicate ImportGoesOn(w: World, backend: Backend, k: Keys, secret: Option<Secret>) {
    && secret.Some? && k.usable(secret.value)
    && (Load(w, backend).1.Ok? || Load(w, backend).1 == Err(Locked))
  }

  /** The slots an import writes. */
  function Imported(w: World, backend: Backend, k: Keys, secret: Secret): Slots {
    (if Load(w, backend).1.Ok? then Load(w, backend).1.value else map[])[IDENTITY_SLOT := k.nsec(secret)]
  }

  /** The steps after the read are write, read back, marker, confirmation. */
  predicate RefusedAfterWrite(fates: seq<Fate>) {
    Refused(FateOf(fates, 2)) || Refused(FateOf(fates, 3)) || Refused(FateOf(fates, 4))
  }

  /** An import over a confirmed identity, by the fates of its steps: the key is in place exactly if
      the write was not refused, the confirmation is cleared exactly if none of the four was, and
      only then is success reported. */
  lemma ImportExactly(w: World, backend: Backend, k: Keys, secret: Option<Secret>)
    requires Honest(w.script) && w.confirmed
    ensures var (w', r) := Import(w, backend, k, secret);
            && (!ImportGoesOn(w, backend, k, secret) ==> w'.entry == w.entry && w'.confirmed && !r.Ok?)
            && (ImportGoesOn(w, backend, k, secret) ==>
                  && w'.entry == (if Refused(FateOf(w.script, 1)) then w.entry
                      else Holding(Imported(w, backend, k, secret.value)))
                  && (w'.confirmed <==> Refused(FateOf(w.script, 1)) || RefusedAfterWrite(w.script))
                  && (r.Ok? <==> !w'.confirmed))
  {
    LoadReads(w, backend);
    if ImportGoesOn(w, backend, k, secret) {
      LoadTakesOne(w, backend);
      var w1 := Load(w, backend).0;
      ReplaceExactly(w1, backend, Imported(w, backend, k, secret.value), k.npub(secret.value));
      assert forall i: nat :: FateOf(w1.script, i) == FateOf(w.script, i + 1);
    }
  }

  lemma LoadTakesOne(w: World, backend: Backend)
    ensures Load(w, backend).0 == Moved(w)
  {
  }

  lemma ReplaceExactly(w: World, backend: Backend, slots: Slots, npub: string)
    requires Honest(w.script) && w.confirmed
    ensures var (w', r) := Replace(w, backend, slots, npub);
            && w'.entry == (if Refused(FateOf(w.script, 0)) then w.entry else Holding(slots))
            && (r.Ok? <==> !w'.confirmed)
            && (w'.confirmed <==> Refused(FateOf(w.script, 0)) || Refused(FateOf(w.script, 1))
                                  || Refused(FateOf(w.script, 2)) || Refused(FateOf(w.script, 3)))
  {
    StoreExactly(w, backend, slots, npub);
    hide Store;
  }

  lemma StoreExactly(w: World, backend: Backend, slots: Slots, npub: string)
    requires Honest(w.script)
    ensures var (w', r) := Store(w, backend, slots, npub);
            && w'.entry == (if Refused(FateOf(w.script, 0)) then w.entry else Holding(slots))
                && w'.confirmed == w.confirmed
            && (r.Ok? <==>
                  !Refused(FateOf(w.script, 0)) && !Refused(FateOf(w.script, 1)) && !Refused(FateOf(w.script, 2)))
            && (r.Ok? ==> Fated(w') == FateOf(w.script, 3))
  {
    var (w1, wrote) := WriteRaw(w, backend, slots);
    assert Fated(w1) == FateOf(w.script, 1);
    if wrote.Ok? {
      var (w2, raw) := ReadRaw(w1, backend);
      assert Fated(w2) == FateOf(w.script, 2);
    }
  }

  /** The new key stands under the old key's confirmation exactly when the write went through and
      one of the three steps after it did not. */
  lemma ImportInheritsExactly(w: World, backend: Backend, k: Keys, secret: Option<Secret>)
    requires Honest(w.script) && w.confirmed && secret.Some? && Held(w) != Some(k.nsec(secret.value))
    ensures var w' := Import(w, backend, k, secret).0;
            Held(w') == Some(k.nsec(secret.value)) && w'.confirmed <==>
            ImportGoesOn(w, backend, k, secret) && !Refused(FateOf(w.script, 1)) && RefusedAfterWrite(w.script)
  {
    ImportExactly(w, backend, k, secret);
  }

  // --- the marker ---------------------------------------------------------------

  /** Healing settles the marker: on success it names the identity and a second healing writes
      nothing; a marker already right costs nothing; key and confirmation are never touched. */
  lemma HealingSettles(w: World, npub: string)
    requires npub != ""
    ensures var (w', r) := EnsureMarker(w, npub);
            && w'.entry == w.entry && w'.confirmed == w.confirmed
            && (r.Ok? ==> Marker(w') == Some(npub) && EnsureMarker(w', npub) == (w', Ok(())))
            && (Marker(w) == Some(npub) ==> w' == w)
  {
  }

  // --- registrations --------------------------------------------------------------

  /** Storing slots that hold an identity, on a keychain that keeps what it says it keeps. */
  lemma RewriteStores(w: World, backend: Backend, k: Keys, slots: Slots, existing: string)
    requires Honest(w.script)
    ensures var (w', r) := Rewrite(w, backend, k, slots, existing);
            r.Ok? ==> w'.entry == Holding(slots)
  {
    var secret := Decoded(k, existing);
    if secret.Some? { StoredMeansAllSlots(w, backend, slots, k.npub(secret.value)); }
  }

  /** A registration remembered is there to be read, beside everything that was there before. */
  lemma RememberedIsReadable(w: World, backend: Backend, k: Keys, server: string, token: string, name: string)
    requires Honest(w.script)
    ensures var (w', r) := Remember(w, backend, k, server, token, name);
            && (r.Ok? ==>
                  && SlotOf(SlotsIn(w'), TokenSlot(server)) == Some(token)
                  && SlotOf(SlotsIn(w'), LabelSlot(server)) == Some(name)
                  && Held(w').Some? && SameBut(SlotsIn(w), SlotsIn(w'), {TokenSlot(server), LabelSlot(server)}))
            && (r == Err(EmptyToken) <==> token == "")
            && (r == Err(EmptyLabel) <==> token != "" && name == "")
            && (r == Err(NoIdentityYet) <==> token != "" && name != "" && Load(w, backend).1.Ok? && Held(w).None?)
  {
    LoadReads(w, backend);
    SlotsApart(server, server);
    hide TokenSlot, LabelSlot;
    var (w1, r) := Load(w, backend);
    if r.Ok? && IDENTITY_SLOT in r.value {
      var slots := r.value[TokenSlot(server) := token][LabelSlot(server) := name];
      RewriteStores(w1, backend, k, slots, r.value[IDENTITY_SLOT]);
      RewriteErrors(w1, backend, k, slots, r.value[IDENTITY_SLOT]);
    }
    LoadErrors(w, backend);
    hide Rewrite, Load;
  }

  predicate RegistrationError(e: Error) {
    e == EmptyToken || e == EmptyLabel || e == NoIdentityYet
  }

  lemma LoadErrors(w: World, backend: Backend)
    ensures Load(w, backend).1.Err? ==> !RegistrationError(Load(w, backend).1.error)
  {
  }

  lemma RewriteErrors(w: World, backend: Backend, k: Keys, slots: Slots, existing: string)
    ensures var r := Rewrite(w, backend, k, slots, existing).1; r.Err? ==> !RegistrationError(r.error)
  {
  }

  /** Forgetting drops the token, keeps the name exactly when asked to, and leaves the rest; with
      neither there, or nobody to forget for, it writes nothing. */
  lemma ForgottenIsGone(w: World, backend: Backend, k: Keys, server: string, keepLabel: bool)
    requires Honest(w.script)
    ensures var (w', r) := Forget(w, backend, k, server, keepLabel);
            && (r.Ok? && Held(w).Some? ==>
                  && TokenSlot(server) !in SlotsIn(w')
                  && SlotOf(SlotsIn(w'), LabelSlot(server)) == (if keepLabel then SlotOf(SlotsIn(w), LabelSlot(server))
                      else None)
                  && SameBut(SlotsIn(w), SlotsIn(w'), {TokenSlot(server), LabelSlot(server)}))
            && (Held(w).None? || (TokenSlot(server) !in SlotsIn(w) && (keepLabel
                || LabelSlot(server) !in SlotsIn(w))) ==>
                  w' == Load(w, backend).0)
  {
    LoadReads(w, backend);
    SlotsApart(server, server);
    hide TokenSlot, LabelSlot;
    var (w1, r) := Load(w, backend);
    if r.Ok? && IDENTITY_SLOT in r.value {
      var dropped := {TokenSlot(server)} + if keepLabel then {} else {LabelSlot(server)};
      RewriteStores(w1, backend, k, r.value - dropped, r.value[IDENTITY_SLOT]);
    }
    hide Rewrite, Load;
  }

  /** Migrating files a bare slot under the server, never over one that stands there, and takes
      the bare slots away. */
  lemma MigratedIsFiled(w: World, backend: Backend, k: Keys, server: string)
    requires Honest(w.script)
    ensures var (w', r) := MigrateTo(w, backend, k, server);
            && (r.Ok? && Held(w).Some? ==>
                  && HOST_TOKEN_SLOT !in SlotsIn(w') && LABEL_SLOT !in SlotsIn(w')
                  && Filed(SlotsIn(w), SlotsIn(w'), HOST_TOKEN_SLOT, TokenSlot(server))
                  && Filed(SlotsIn(w), SlotsIn(w'), LABEL_SLOT, LabelSlot(server))
                  && SameBut(SlotsIn(w), SlotsIn(w'), OwnSlots(server)))
            && (Held(w).None? || (HOST_TOKEN_SLOT !in SlotsIn(w) && LABEL_SLOT !in SlotsIn(w)) ==>
                w' == Load(w, backend).0)
  {
    LoadReads(w, backend);
    var (w1, r) := Load(w, backend);
    if r.Ok? && IDENTITY_SLOT in r.value {
      MigratedSlots(r.value, server);
      RewriteStores(w1, backend, k, Migrated(r.value, server), r.value[IDENTITY_SLOT]);
    }
    hide Rewrite, Load, Migrated, TokenSlot, LabelSlot, OwnSlots, Filed, SameBut;
  }

  lemma MigratedSlots(slots: Slots, server: string)
    ensures var after := Migrated(slots, server);
            && HOST_TOKEN_SLOT !in after && LABEL_SLOT !in after
            && Filed(slots, after, HOST_TOKEN_SLOT, TokenSlot(server))
                && Filed(slots, after, LABEL_SLOT, LabelSlot(server))
            && SameBut(slots, after, OwnSlots(server))
            && (IDENTITY_SLOT in slots ==> IDENTITY_SLOT in after && after[IDENTITY_SLOT] == slots[IDENTITY_SLOT])
            && (HOST_TOKEN_SLOT !in slots && LABEL_SLOT !in slots ==> after == slots)
  {
    SlotsApart(server, server);
    hide TokenSlot, LabelSlot;
  }

  /** `to` holds what it held, or, if that was nothing, what `bare` did. */
  predicate Filed(before: Slots, after: Slots, bare: string, to: string) {
    SlotOf(after, to) == if to in before then SlotOf(before, to) else SlotOf(before, bare)
  }
}
