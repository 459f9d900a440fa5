/** Launches one after another: when a copy is made, that an upgrade which failed is undone when asked,
    and that a version which has answered is left in peace. */
module LaunchLaws {
  import opened Text
  import opened Stamp
  import opened Backups
  import opened BackupLaws
  import opened Supervisor

  // --- when a copy is made ----------------------------------------------------------

  /** The copy a restore put back is still there, and no server has answered since. */
  predicate StillRestored(d: Disk) {
    d.record.restoredFrom.Some? && d.record.restoredFrom.value in d.backups
  }

  /** There is a database, it was not put back, and the version that last answered is another. */
  predicate IsUpgrade(d: Disk, version: string) {
    Main in d.live && !StillRestored(d) && d.record.version != Some(version)
  }

  /** A copy is made exactly for an upgrade, the copy put back is offered exactly while it is the
      database's own, and nothing else touches the disk before the server starts. */
  lemma CopiedExactly(d: Disk, m: Disk, version: string, dir: string, r: Option<Backup>)
    requires UpgradeCopied(d, m, version, dir, r)
    ensures r.Some? && r.value.isFresh <==> IsUpgrade(d, version)
    ensures r.Some? && !r.value.isFresh <==> Main in d.live && StillRestored(d)
    ensures IsUpgrade(d, version) ==>
              && r.value.dir == dir && dir in m.backups && m.backups[dir] == HeldIn(d.backups, dir) + d.live
              && |m.backups.Keys| <= BACKUPS_KEPT
    ensures m.live == d.live && m.record == d.record && (m != d ==> IsUpgrade(d, version))
  {
    if IsUpgrade(d, version) {
      KeptIsThere(d.backups[dir := HeldIn(d.backups, dir) + d.live], m.backups, dir);
    }
    hide Pruned;
  }

  lemma KeptIsThere(before: map<string, Files>, after: map<string, Files>, keep: string)
    requires Pruned(before, after, keep) && keep in before
    ensures keep in after && after[keep] == before[keep] && |after.Keys| <= BACKUPS_KEPT
  {
  }

  // --- one launch -----------------------------------------------------------------

  /** One launch of a version: the attempts it made, and when somebody asked for the backup, if ever. */
  datatype Opening = Opening(stamp: string, attempts: seq<Attempt>, askedAt: Option<string>)

  ghost predicate Opened(d: Disk, e: Disk, version: string, o: Opening) {
    exists m: Disk, r :: OpenedWith(d, m, r, e, version, o)
  }

  /** What it leaves: what its attempts left or, where none answered and the backup was asked for, perhaps
      what the restore made of that. */
  ghost predicate OpenedWith(d: Disk, m: Disk, r: Option<Backup>, e: Disk, version: string, o: Opening) {
    var served := Served(m, version, o.attempts, |o.attempts|);
    && UpgradeCopied(d, m, version, UpgradeName(o.stamp, FromVersion(d.record), version), r)
    && (e == served
        || (o.askedAt.Some? && r.Some? && !AnyReady(o.attempts)
            && PutBack(served, e, r.value.dir, FailedName(o.askedAt.value, version))))
  }

  /** The supervisor over a directory, and somebody asking for the backup when it has ended. An upgrade
      that gave up without ever answering is undone then: the files are those from before it. */
  method Open(dir: OfficeDir, version: string, attempts: seq<Attempt>, stamp: string, askedAt: string)
    returns (ran: nat, r: Result<Restored>)
    requires attempts != [] && ClockMonotone(attempts)
    modifies dir
    ensures 0 < ran <= |attempts|
    ensures Opened(old(dir.Snapshot()), dir.Snapshot(), version, Opening(stamp, attempts[..ran], Some(askedAt)))
    ensures var d, name := old(dir.Snapshot()), UpgradeName(stamp, FromVersion(old(dir.record)), version);
            && (r.Ok? ==> GivesUpAt(attempts, ran - 1) && !AnyReady(attempts[..ran]))
            && (IsUpgrade(d, version) && GivesUpAt(attempts, ran - 1) && !AnyReady(attempts[..ran]) ==>
                  && r == Ok(Restored(FailedName(askedAt, version), VersionIn(name)))
                  && (name !in d.backups && FailedName(askedAt, version) != name ==> dir.live == d.live))
  {
    ghost var d, name := dir.Snapshot(), UpgradeName(stamp, FromVersion(dir.record), version);
    var office := new Office(dir, version);
    ghost var m: Disk, made: Option<Backup>;
    ran, m, made := office.Supervise(attempts, stamp);
    Ended(m, version, attempts, ran);
    if IsUpgrade(d, version) { UpgradeHolds(d, m, made, version, name); }
    r := office.Restore(askedAt);
    assert OpenedWith(d, m, made, dir.Snapshot(), version, Opening(stamp, attempts[..ran], Some(askedAt)));
  }

  /** What is known when the supervisor has returned: of its attempts, and of its copy. */
  lemma Ended(m: Disk, version: string, attempts: seq<Attempt>, ran: nat)
    requires 0 < ran <= |attempts| && ClockMonotone(attempts) && After(attempts, ran - 1).phase == Starting
    ensures var served := Served(m, version, attempts, ran);
            && served == Served(m, version, attempts[..ran], ran)
            && served.backups == m.backups
            && After(attempts, ran).everReady == AnyReady(attempts[..ran])
            && (After(attempts, ran).phase == Failed <==> GivesUpAt(attempts, ran - 1))
  {
    TallyMeans(attempts, ran);
    ServedMeans(m, version, attempts, ran);
    ServedMeans(m, version, attempts[..ran], ran);
    assert attempts[..ran][..ran] == attempts[..ran];
    hide After, Served, GivesUpAt;
  }

  lemma UpgradeHolds(d: Disk, m: Disk, r: Option<Backup>, version: string, name: string)
    requires UpgradeCopied(d, m, version, name, r) && IsUpgrade(d, version)
    ensures r == Some(Backup(name, true)) && name in m.backups && Main in m.backups[name]
    ensures name !in d.backups ==> m.backups[name] == d.live
  {
    CopiedExactly(d, m, version, name, r);
    hide UpgradeCopied;
    assert map[] + d.live == d.live;
  }

  // --- back to the version before -----------------------------------------------------

  /** The record after that restore: the database is again of the version it was upgraded from, as
      that version's name reads back from the copy's. Launching that version makes no copy, and once it
      answers it is the version on record and nothing is offered any more. */
  lemma BackToTheVersionBefore(d: Disk, failed: Disk, e: Disk, version: string, stamp: string, aside: string)
    requires IsUpgrade(d, version) && |stamp| == STAMP_LEN && ReadsBack(FromVersion(d.record))
    requires aside != UpgradeName(stamp, FromVersion(d.record), version)
    requires PutBack(failed, e, UpgradeName(stamp, FromVersion(d.record), version), aside)
    ensures var from, name := FromVersion(d.record), UpgradeName(stamp, FromVersion(d.record), version);
            && e.record == Record(Some(from), Some(name))
            && (forall m, v, dir, r :: UpgradeCopied(e, m, v, dir, r) ==> m == e && r == Some(Backup(name, false)))
            && (forall attempts :: attempts != [] && AnyReady(attempts) ==>
                  Served(e, from, attempts, |attempts|).record == Record(Some(from), None))
  {
    var from, name := FromVersion(d.record), UpgradeName(stamp, FromVersion(d.record), version);
    VersionReadsBack(stamp, from, version);
    hide UpgradeName, VersionIn;
    PutBackHolds(failed, e, name, aside);
    forall attempts | attempts != [] && AnyReady(attempts)
      ensures Served(e, from, attempts, |attempts|).record == Record(Some(from), None)
    {
      ServedMeans(e, from, attempts, |attempts|);
      assert attempts[..|attempts|] == attempts;
    }
  }

  lemma PutBackHolds(d: Disk, e: Disk, name: string, aside: string)
    requires PutBack(d, e, name, aside) && aside != name
    ensures name in e.backups && Main in e.live && e.record.restoredFrom == Some(name)
    ensures VersionIn(name).Some? ==> e.record.version == VersionIn(name)
  {
    hide VersionIn;
  }

  predicate ReadsBack(from: string) {
    !Contains(from, "-to-") && !(|from| >= 3 && from[|from| - 3..] == "-to")
  }

  // --- a version that has answered ------------------------------------------------------

  /** A version that has answered: it is on record, and nothing put back is. */
  predicate Settled(d: Disk, version: string) {
    d.record == Record(Some(version), None)
  }

  /** A launch in which the server answers settles its version, whatever was there before it. */
  lemma AnsweringSettles(d: Disk, e: Disk, version: string, o: Opening)
    requires Opened(d, e, version, o) && o.attempts != [] && AnyReady(o.attempts)
    ensures Settled(e, version)
  {
    var m: Disk, r :| OpenedWith(d, m, r, e, version, o);
    ServedMeans(m, version, o.attempts, |o.attempts|);
    assert o.attempts[..|o.attempts|] == o.attempts;
  }

  lemma SettledOpens(d: Disk, e: Disk, version: string, o: Opening)
    requires Opened(d, e, version, o) && o.attempts != [] && Settled(d, version)
    ensures Settled(e, version) && e.backups == d.backups
  {
    var m: Disk, r :| OpenedWith(d, m, r, e, version, o);
    CopiedExactly(d, m, version, UpgradeName(o.stamp, FromVersion(d.record), version), r);
    ServedMeans(m, version, o.attempts, |o.attempts|);
    hide UpgradeName, UpgradeCopied;
  }

  ghost predicate OpenedInTurn(states: seq<Disk>, version: string, openings: seq<Opening>) {
    && |states| == |openings| + 1
    && forall i, j :: 0 <= i < |openings| && j == i + 1 ==>
         Opened(states[i], states[j], version, openings[i]) && openings[i].attempts != []
  }

  /** Once a version has answered, any number of its launches, answering or failing, leave the backups
      exactly as they are, and none of them makes a copy or offers one. */
  lemma {:induction false} LeftInPeace(states: seq<Disk>, version: string, openings: seq<Opening>)
    requires OpenedInTurn(states, version, openings) && Settled(states[0], version)
    ensures forall i :: 0 <= i < |states| ==> Settled(states[i], version) && states[i].backups == states[0].backups
    ensures forall i, m, dir, r :: 0 <= i < |states| && UpgradeCopied(states[i], m, version, dir, r) ==>
              r == None && m == states[i]
  {
    if openings == [] {
    } else {
      assert Opened(states[0], states[1], version, openings[0]);
      SettledOpens(states[0], states[1], version, openings[0]);
      LeftInPeace(states[1..], version, openings[1..]);
      forall i | 1 <= i < |states|
        ensures Settled(states[i], version) && states[i].backups == states[0].backups
      {
        assert states[i] == states[1..][i - 1];
      }
    }
  }

  // --- an upgrade tried again ---------------------------------------------------------------

  /** Another launch of an upgrade that has not answered yet, under a name later than every other. */
  ghost predicate Retried(d: Disk, e: Disk, version: string, name: string) {
    && IsUpgrade(d, version) && (forall o :: o in d.backups ==> Before(o, name))
    && exists r :: UpgradeCopied(d, e.(live := d.live), version, name, r)
  }

  ghost predicate RetriedInTurn(states: seq<Disk>, version: string, names: seq<string>) {
    && |states| == |names| + 1
    && forall i, j :: 0 <= i < |names| && j == i + 1 ==> Retried(states[i], states[j], version, names[i])
  }

  ghost function LaterThan(backups: map<string, Files>, first: string): set<string> {
    set o | o in backups && Before(first, o)
  }

  /** Only a restore stops further copies. An upgrade that fails and is simply launched again has a copy
      made each time, of what the last failure left and under a later name, and at the fifth of these the
      copy of the database as it was before the upgrade is rotated out. */
  lemma {:induction false} RetriesRotateItOut(states: seq<Disk>, version: string, names: seq<string>, first: string)
    requires RetriedInTurn(states, version, names)
    requires first in states[0].backups && forall o :: o in states[0].backups && o != first ==> Before(o, first)
    ensures first in states[|names|].backups <==> |names| < BACKUPS_KEPT
    ensures names != [] ==> HeldIn(states[|names|].backups, names[|names| - 1]) == states[|names| - 1].live
    ensures |names| < BACKUPS_KEPT ==> |LaterThan(states[|names|].backups, first)| == |names|
    ensures names != [] ==> Before(first, names[|names| - 1]) && names[|names| - 1] in states[|names|].backups
  {
    var n := |names|;
    if n == 0 {
      NoneLater(states[0].backups, first);
    } else {
      RetriesRotateItOut(states[..n], version, names[..n - 1], first);
      assert Retried(states[n - 1], states[n], version, names[n - 1]);
      if n > 1 { BeforeTransitive(first, names[n - 2], names[n - 1]); }
      OneMoreRetry(states[n - 1], states[n], version, names[n - 1], first, n - 1);
    }
  }

  lemma NoneLater(backups: map<string, Files>, first: string)
    requires forall o :: o in backups && o != first ==> Before(o, first)
    ensures LaterThan(backups, first) == {}
  {
    forall o | o in backups ensures !Before(first, o) {
      BeforeIrreflexive(first);
      if Before(first, o) { BeforeTransitive(first, o, first); }
    }
  }

  lemma OneMoreRetry(d: Disk, e: Disk, version: string, name: string, first: string, n: nat)
    requires Retried(d, e, version, name) && Before(first, name)
    requires first in d.backups <==> n < BACKUPS_KEPT
    requires n < BACKUPS_KEPT ==> |LaterThan(d.backups, first)| == n
    ensures name in e.backups && e.backups[name] == d.live
    ensures first in e.backups <==> n + 1 < BACKUPS_KEPT
    ensures n + 1 < BACKUPS_KEPT ==> |LaterThan(e.backups, first)| == n + 1
  {
    var r :| UpgradeCopied(d, e.(live := d.live), version, name, r);
    BeforeIrreflexive(name);
    assert map[] + d.live == d.live;
    var before := d.backups[name := d.live];
    assert Pruned(before, e.backups, name);
    hide UpgradeCopied;
    if n < BACKUPS_KEPT {
      assert LaterThan(before, first) == LaterThan(d.backups, first) + {name};
      RankDecides(before, e.backups, name, first);
    }
    BeforeIrreflexive(first);
  }

  /** Of the directories but the newest a rotation keeps those with fewer than four later ones besides it. */
  lemma RankDecides(before: map<string, Files>, after: map<string, Files>, newest: string, first: string)
    requires Pruned(before, after, newest) && newest in before && first in before && Before(first, newest)
    ensures first in after <==> |LaterThan(before, first)| < BACKUPS_KEPT
    ensures first in after ==> LaterThan(after, first) == LaterThan(before, first)
  {
    var later := LaterThan(before, first);
    BeforeIrreflexive(first);
    if first in after {
      forall o | o in later ensures o in after {
        if o !in after { BeforeTransitive(first, o, first); }
      }
      assert LaterThan(after, first) == later;
      Subset(later + {first}, after.Keys);
    } else {
      assert first in before.Keys - after.Keys;
      forall o | o in after ensures o in later {
        assert o != newest ==> Before(first, o);
      }
      Subset(after.Keys, later);
    }
  }
}
