/** What the backup, the restore and the rotation promise together, and what
    holds of them over any number of failing launches. */
module BackupLaws {
  import opened Text
  import opened Stamp
  import opened Backups

  // --- one upgrade, one restore -----------------------------------------------

  /** Whatever the failed version did to the three files, the restore returns them
      all, and only them; the failed files are in the directory set aside. */
  lemma RestoreUndoesUpgrade(before: Disk, copied: Disk, after: Files, restored: Disk, version: string, r: Backup,
                             aside: string)
    requires UpgradeCopied(before, copied, version, r.dir, Some(r)) && r.isFresh
    requires r.dir !in before.backups && aside !in copied.backups
    requires PutBack(copied.(live := after), restored, r.dir, aside)
    ensures restored.live == before.live
    ensures r.dir in restored.backups && restored.backups[r.dir] == before.live
    ensures aside in restored.backups ==> restored.backups[aside] == after
  {
    CopyHolds(before, copied, version, r);
    var failed := copied.(live := after);
    assert HeldIn(failed.backups, aside) + after == after;
    RestoreHolds(failed, restored, r.dir, aside);
  }

  lemma CopyHolds(before: Disk, copied: Disk, version: string, r: Backup)
    requires UpgradeCopied(before, copied, version, r.dir, Some(r)) && r.isFresh
    requires r.dir !in before.backups
    ensures r.dir in copied.backups && copied.backups[r.dir] == before.live
  {
    assert HeldIn(before.backups, r.dir) + before.live == before.live;
  }

  /** A restore leaves the database exactly as the copy has it, and keeps the copy. */
  lemma RestoreHolds(d: Disk, e: Disk, name: string, aside: string)
    requires PutBack(d, e, name, aside) && aside != name
    ensures Holds(e, name, d.backups[name]) && e.live == d.backups[name]
    ensures aside in e.backups ==> e.backups[aside] == HeldIn(d.backups, aside) + d.live
  {
  }

  /** A directory some earlier second named. */
  ghost predicate StampedBefore(name: string, secs: nat) {
    exists t: nat :: t < secs && |NowStamp(t)| <= |name| && name[..|NowStamp(t)|] == NowStamp(t)
  }

  lemma EarlierSortsFirst(name: string, secs: nat, rest: string)
    requires StampedBefore(name, secs) && secs < YEAR_10000
    ensures Before(name, NowStamp(secs) + rest)
  {
    hide NowStamp, Before;
    var t: nat :| t < secs && |NowStamp(t)| <= |name| && name[..|NowStamp(t)|] == NowStamp(t);
    StampWidth(t);
    StampWidth(secs);
    StampOrders(t, secs);
    BeforeByParts(NowStamp(t), NowStamp(secs), name[STAMP_LEN..], rest);
    assert name == NowStamp(t) + name[STAMP_LEN..];
  }

  /** With a clock that has moved on since every other directory was named, the
      rotation after a restore keeps both the backup and the files that failed. */
  lemma NeitherIsLost(d: Disk, e: Disk, name: string, version: string, secs: nat)
    requires secs < YEAR_10000
    requires forall other :: other in d.backups ==> StampedBefore(other, secs)
    requires PutBack(d, e, name, FailedName(NowStamp(secs), version))
    ensures var aside := FailedName(NowStamp(secs), version);
            && aside != name && name in e.backups && aside in e.backups
            && e.backups[name] == d.backups[name] && e.backups[aside] == d.live
    ensures |e.backups.Keys| <= BACKUPS_KEPT
  {
    var aside := FailedName(NowStamp(secs), version);
    NoneNewer(d.backups, name, version, secs);
    hide PutBack, NowStamp, StampedBefore, FailedName, NewerThan;
    AsideIsKeptExactly(d, e, name, aside);
    RestoreNames(d, e, name, aside);
  }

  lemma RestoreNames(d: Disk, e: Disk, name: string, aside: string)
    requires PutBack(d, e, name, aside)
    ensures name in d.backups
  {
  }

  lemma NoneNewer(backups: map<string, Files>, name: string, version: string, secs: nat)
    requires secs < YEAR_10000 && forall other :: other in backups ==> StampedBefore(other, secs)
    ensures var aside := FailedName(NowStamp(secs), version);
            aside !in backups && NewerThan(backups, name, aside) == {}
  {
    var aside := FailedName(NowStamp(secs), version);
    var rest := "-failed-" + version;
    assert aside == NowStamp(secs) + rest;
    forall other | other in backups ensures Before(other, aside) && other != aside && !Before(aside, other) {
      EarlierSortsFirst(other, secs, rest);
      hide Before, NowStamp;
      BeforeIrreflexive(aside);
      if Before(aside, other) { BeforeTransitive(aside, other, aside); }
    }
  }

  /** The other directories that sort after `aside`: those the rotation takes for newer. */
  ghost function NewerThan(backups: map<string, Files>, name: string, aside: string): set<string> {
    set o | o in backups && o != name && Before(aside, o)
  }

  /** Whether a restore's own rotation spares the files that failed, whatever the clock says: exactly
      if fewer than four other directories sort after the one they were moved to. */
  lemma AsideIsKeptExactly(d: Disk, e: Disk, name: string, aside: string)
    requires PutBack(d, e, name, aside) && aside !in d.backups
    ensures aside in e.backups <==> |NewerThan(d.backups, name, aside)| < BACKUPS_KEPT - 1
    ensures aside in e.backups ==> e.backups[aside] == d.live
    ensures name in e.backups && e.backups[name] == d.backups[name] && |e.backups.Keys| <= BACKUPS_KEPT
  {
    var newer, left := NewerThan(d.backups, name, aside), e.backups.Keys;
    var moved := d.backups[aside := HeldIn(d.backups, aside) + d.live];
    assert map[] + d.live == d.live;
    assert Rotated(moved.Keys, left, name) && name in moved;
    if aside in e.backups {
      NewerAreLeft(moved.Keys, left, name, aside, newer);
      Subset(newer + {aside, name}, left);
    } else {
      assert aside in moved.Keys - left;
      assert left - {name} <= newer;
      Subset(left - {name}, newer);
    }
  }

  lemma NewerAreLeft(before: set<string>, left: set<string>, name: string, aside: string, newer: set<string>)
    requires Rotated(before, left, name) && name in before && aside in left && aside != name && newer <= before
    requires forall o :: o in newer ==> Before(aside, o) && o != name
    ensures newer + {aside, name} <= left && aside !in newer
  {
    forall o | o in newer ensures o in left && o != aside {
      BeforeIrreflexive(aside);
      if o !in left { BeforeTransitive(aside, o, aside); }
    }
  }

  // --- a restore cut short ----------------------------------------------------

  /** One file of the three: the live one moves aside. */
  function MovedAside(d: Disk, aside: string, file: DbFile): Disk {
    if file !in d.live then d
    else
      d.(live := d.live - {file}, backups := d.backups[aside := HeldIn(d.backups, aside)[file := d.live[file]]])
  }

  /** Then the backup's copy of it goes live. */
  function CopiedBack(d: Disk, name: string, file: DbFile): Disk {
    if file !in HeldIn(d.backups, name) then d else d.(live := d.live[file := HeldIn(d.backups, name)[file]])
  }

  /** The disk after `j` of the six steps a restore takes before it writes the record. */
  function RestoreCut(d: Disk, name: string, aside: string, j: nat): Disk
    requires j <= 6
  {
    if j == 0 then d.(backups := d.backups[aside := HeldIn(d.backups, aside)])
    else if j % 2 == 1 then MovedAside(RestoreCut(d, name, aside, j - 1), aside, DB_FILES[j / 2])
    else CopiedBack(RestoreCut(d, name, aside, j - 1), name, DB_FILES[j / 2 - 1])
  }

  /** A cut after `j` steps, or in the middle of the next one, which leaves some bytes or other in the
      one file being written: the live one, or, where moving is copying and then removing, the one
      set aside. */
  ghost predicate CutAt(d: Disk, c: Disk, name: string, aside: string, j: nat)
    requires j <= 6
  {
    var done := RestoreCut(d, name, aside, j);
    || c == done
    || (j % 2 == 1 && DB_FILES[j / 2] in HeldIn(d.backups, name)
        && exists torn :: c == Torn(done, DB_FILES[j / 2], torn))
    || (j % 2 == 0 && j < 6 && DB_FILES[j / 2] in done.live
        && exists torn :: c == TornAside(done, aside, DB_FILES[j / 2], torn))
  }

  function TornAside(d: Disk, aside: string, file: DbFile, bytes: Bytes): Disk {
    d.(backups := d.backups[aside := HeldIn(d.backups, aside)[file := bytes]])
  }

  function Torn(d: Disk, file: DbFile, bytes: Bytes): Disk {
    d.(live := d.live[file := bytes])
  }

  /** Each of the files that failed is where it was or in the directory they are moved to. */
  ghost predicate NoneGone(d: Disk, c: Disk, aside: string) {
    forall f :: f in d.live ==>
      || (f in c.live && c.live[f] == d.live[f])
      || (f in HeldIn(c.backups, aside) && c.backups[aside][f] == d.live[f])
  }

  /** All six steps are the swap `PutBack` speaks of. */
  lemma SixStepsSwap(d: Disk, name: string, aside: string)
    requires name in d.backups && aside != name
    ensures var c := RestoreCut(d, name, aside, 6);
            && c.live == d.backups[name] && c.record == d.record
            && c.backups == d.backups[aside := HeldIn(d.backups, aside) + d.live]
  {
    CutFiles(d, name, aside, 6);
    var c, held := RestoreCut(d, name, aside, 6), HeldIn(d.backups, aside) + d.live;
    hide RestoreCut;
    forall f ensures LookUp(c.live, f) == LookUp(d.backups[name], f) && LookUp(c.backups[aside], f) == LookUp(held, f) {
      assert Turn(f) <= 2 && LiveAt(d, c, name, 6, f) && AsideAt(d, c, aside, 6, f);
    }
    SameFiles(c.live, d.backups[name]);
    SameFiles(c.backups[aside], held);
    var moved := d.backups[aside := held];
    forall o ensures o in c.backups <==> o in moved
      ensures o in moved ==> c.backups[o] == moved[o]
    {
      if o != aside {
        assert o in c.backups <==> o in c.backups - {aside};
        assert o in d.backups <==> o in d.backups - {aside};
        assert o in d.backups ==> (c.backups - {aside})[o] == (d.backups - {aside})[o];
      }
    }
    assert c.backups == moved;
  }

  lemma SameFiles(a: Files, b: Files)
    requires forall f :: LookUp(a, f) == LookUp(b, f)
    ensures a == b
  {
    forall f: DbFile ensures f in a <==> f in b
      ensures f in a ==> a[f] == b[f]
    {
      assert LookUp(a, f) == LookUp(b, f);
    }
    assert a == b;
  }

  /** When a file's turn comes. */
  function Turn(f: DbFile): nat {
    match f case Main => 0 case Wal => 1 case Shm => 2
  }

  function LookUp(files: Files, f: DbFile): Option<Bytes> {
    if f in files then Some(files[f]) else None
  }

  /** File by file, what is live and what is aside after `j` steps. */
  ghost predicate FilesAt(d: Disk, c: Disk, name: string, aside: string, j: nat) {
    && c.record == d.record && aside in c.backups && c.backups - {aside} == d.backups - {aside}
    && forall f :: LiveAt(d, c, name, j, f) && AsideAt(d, c, aside, j, f)
  }

  ghost predicate LiveAt(d: Disk, c: Disk, name: string, j: nat, f: DbFile) {
    var turn := Turn(f);
    LookUp(c.live, f)
    == if j <= 2 * turn then LookUp(d.live, f)
       else if j == 2 * turn + 1 then None
       else LookUp(HeldIn(d.backups, name), f)
  }

  ghost predicate AsideAt(d: Disk, c: Disk, aside: string, j: nat, f: DbFile) {
    LookUp(HeldIn(c.backups, aside), f)
    == if j > 2 * Turn(f) && f in d.live then LookUp(d.live, f) else LookUp(HeldIn(d.backups, aside), f)
  }

  lemma {:induction false} CutFiles(d: Disk, name: string, aside: string, j: nat)
    requires j <= 6 && aside != name
    ensures FilesAt(d, RestoreCut(d, name, aside, j), name, aside, j)
  {
    if j == 0 {
    } else {
      CutFiles(d, name, aside, j - 1);
      var c := RestoreCut(d, name, aside, j - 1);
      hide FilesAt, MovedAside, CopiedBack;
      if j % 2 == 1 { MoveStep(d, c, name, aside, j / 2); } else { CopyBackStep(d, c, name, aside, j / 2 - 1); }
    }
  }

  lemma MoveStep(d: Disk, c: Disk, name: string, aside: string, t: nat)
    requires t < 3 && aside != name && FilesAt(d, c, name, aside, 2 * t)
    ensures FilesAt(d, MovedAside(c, aside, DB_FILES[t]), name, aside, 2 * t + 1)
  {
    var file := DB_FILES[t];
    MovedFiles(c, aside, file);
    TurnOf(t);
    var next := MovedAside(c, aside, file);
    hide MovedAside;
    var j := 2 * t + 1;
    forall f ensures LiveAt(d, next, name, j, f) && AsideAt(d, next, aside, j, f) {
      assert LiveAt(d, c, name, 2 * t, f) && AsideAt(d, c, aside, 2 * t, f);
      assert f == file <==> Turn(f) == t;
    }
  }

  lemma CopyBackStep(d: Disk, c: Disk, name: string, aside: string, t: nat)
    requires t < 3 && aside != name && FilesAt(d, c, name, aside, 2 * t + 1)
    ensures FilesAt(d, CopiedBack(c, name, DB_FILES[t]), name, aside, 2 * t + 2)
  {
    var file := DB_FILES[t];
    CopiedFiles(c, name, aside, file);
    assert HeldIn(c.backups - {aside}, name) == HeldIn(d.backups - {aside}, name);
    assert HeldIn(c.backups, name) == HeldIn(d.backups, name);
    TurnOf(t);
    var next := CopiedBack(c, name, file);
    hide CopiedBack;
    var j := 2 * t + 2;
    forall f ensures LiveAt(d, next, name, j, f) && AsideAt(d, next, aside, j, f) {
      assert LiveAt(d, c, name, 2 * t + 1, f) && AsideAt(d, c, aside, 2 * t + 1, f);
      assert f == file <==> Turn(f) == t;
    }
  }

  lemma TurnOf(t: nat)
    requires t < 3
    ensures forall f :: f == DB_FILES[t] <==> Turn(f) == t
  {
    forall f ensures f == DB_FILES[t] <==> Turn(f) == t {
      match f { case Main => case Wal => case Shm => }
    }
  }

  lemma MovedFiles(d: Disk, aside: string, file: DbFile)
    requires aside in d.backups
    ensures var c := MovedAside(d, aside, file);
            && c.record == d.record && aside in c.backups && c.backups - {aside} == d.backups - {aside}
            && forall f ::
                 && LookUp(c.live, f) == (if f == file then None else LookUp(d.live, f))
                 && LookUp(c.backups[aside], f)
                    == (if f == file && f in d.live then LookUp(d.live, f) else LookUp(d.backups[aside], f))
  {
    assert MovedAside(d, aside, file).backups - {aside} == d.backups - {aside};
  }

  lemma CopiedFiles(d: Disk, name: string, aside: string, file: DbFile)
    requires aside in d.backups
    ensures var c := CopiedBack(d, name, file);
            && c.record == d.record && c.backups == d.backups
            && forall f ::
                 LookUp(c.live, f)
                 == if f == file && f in HeldIn(d.backups, name) then LookUp(HeldIn(d.backups, name), f)
                    else LookUp(d.live, f)
  {
  }

  /** Cut anywhere, a restore has touched neither the backup nor any other directory, nor the record,
      and every file that failed is live still or set aside whole. */
  lemma CutRestoreLosesNothing(d: Disk, c: Disk, name: string, aside: string, j: nat)
    requires j <= 6 && name in d.backups && aside !in d.backups && CutAt(d, c, name, aside, j)
    ensures c.backups - {aside} == d.backups && c.record == d.record && NoneGone(d, c, aside)
  {
    CutFiles(d, name, aside, j);
    var done := RestoreCut(d, name, aside, j);
    hide RestoreCut;
    assert d.backups - {aside} == d.backups;
    forall f | f in d.live
      ensures || (f in c.live && c.live[f] == d.live[f])
              || (f in HeldIn(c.backups, aside) && c.backups[aside][f] == d.live[f])
    {
      assert LiveAt(d, done, name, j, f) && AsideAt(d, done, aside, j, f);
      assert j % 2 == 1 && DB_FILES[j / 2] == f ==> j > 2 * Turn(f);
    }
  }

  /** And it can be asked for again: from any cut, a restore of the same backup leaves exactly the
      backup's files live, and every file that failed in one of the two directories. */
  lemma CutRestoreCanBeRepeated(d: Disk, c: Disk, e: Disk, name: string, aside: string, again: string, j: nat)
    requires j <= 6 && name in d.backups && aside !in d.backups && CutAt(d, c, name, aside, j)
    requires again !in c.backups && PutBack(c, e, name, again)
    ensures e.live == d.backups[name]
    ensures again in e.backups && aside in e.backups ==>
              forall f :: f in d.live ==>
                LookUp(e.backups[aside], f) == Some(d.live[f]) || LookUp(e.backups[again], f) == Some(d.live[f])
  {
    CutRestoreLosesNothing(d, c, name, aside, j);
    assert name in c.backups - {aside} && c.backups[name] == d.backups[name];
    RestoreHolds(c, e, name, again);
    assert HeldIn(c.backups, again) + c.live == c.live;
  }

  // --- a restore with the clock set back ---------------------------------------

  /** A copy made on a day of January 2026, by the last digit of the day. */
  function DayCopy(day: char): string {
    UpgradeName("2026010" + [day] + "-000000", "1.0", "1.1")
  }

  /** Five copies, of one day each. */
  function FullSet(copy: Files): map<string, Files> {
    map[DayCopy('1') := copy, DayCopy('2') := copy, DayCopy('3') := copy, DayCopy('4') := copy, DayCopy('5') := copy]
  }

  /** With the clock set back under a full set of backups, the restore's own rotation deletes what it
      has just set aside, and names it in its answer all the same. */
  lemma AsideCanBeLost(live: Files, copy: Files)
    requires Main in copy
    ensures var name, aside := DayCopy('1'), FailedName("19700101-000000", "1.1");
            var d := Disk(live, FullSet(copy), Record(Some("1.1"), None));
            var e := Disk(copy, FullSet(copy), Record(Some("1.0"), Some(name)));
            PutBack(d, e, name, aside) && aside !in e.backups
  {
    hide VersionIn, Before, DayCopy, FailedName, FullSet, PutBack;
    var name, aside := DayCopy('1'), FailedName("19700101-000000", "1.1");
    OldStamp();
    FiveCopies(copy);
    forall o | o in FullSet(copy) ensures Before(aside, o) && o != aside {
      DayCopyIsLater(o[7], aside);
    }
    OneDotNought();
    FiveNewerLoseIt(Disk(live, FullSet(copy), Record(Some("1.1"), None)), name, aside);
  }

  lemma OldStamp()
    ensures FailedName("19700101-000000", "1.1") != "" && FailedName("19700101-000000", "1.1")[0] == '1'
  {
  }

  /** Five backups that all sort after `aside` are what a restore of one of them may leave. */
  lemma FiveNewerLoseIt(d: Disk, name: string, aside: string)
    requires |d.backups.Keys| == BACKUPS_KEPT && name in d.backups && Main in d.backups[name] && VersionIn(name).Some?
    requires forall o :: o in d.backups ==> Before(aside, o) && o != aside
    ensures PutBack(d, Disk(d.backups[name], d.backups, Record(VersionIn(name), Some(name))), name, aside)
  {
    hide VersionIn, Before;
    var moved := d.backups[aside := HeldIn(d.backups, aside) + d.live];
    assert moved.Keys == d.backups.Keys + {aside};
    assert Rotated(moved.Keys, d.backups.Keys, name);
  }

  lemma DayCopies(x: char, y: char)
    ensures |DayCopy(x)| > 7 && DayCopy(x)[7] == x
    ensures DayCopy(x) == DayCopy(y) <==> x == y
  {
    assert DayCopy(x)[7] == x && DayCopy(y)[7] == y;
  }

  lemma DayCopyIsLater(day: char, aside: string)
    requires aside != "" && aside[0] == '1'
    ensures Before(aside, DayCopy(day)) && DayCopy(day) != aside
  {
    assert DayCopy(day)[0] == '2';
  }

  lemma FiveCopies(copy: Files)
    ensures |FullSet(copy).Keys| == 5
    ensures forall o :: o in FullSet(copy) ==> |o| > 7 && o == DayCopy(o[7]) && FullSet(copy)[o] == copy
    ensures DayCopy('1') in FullSet(copy)
  {
    hide DayCopy;
    forall x: char ensures |DayCopy(x)| > 7 && DayCopy(x)[7] == x { DayCopies(x, x); }
    FiveDistinct(DayCopy('1'), DayCopy('2'), DayCopy('3'), DayCopy('4'), DayCopy('5'));
    assert FullSet(copy).Keys == {DayCopy('1'), DayCopy('2'), DayCopy('3'), DayCopy('4'), DayCopy('5')};
  }

  lemma FiveDistinct(a: string, b: string, c: string, x: string, y: string)
    requires a !in {b, c, x, y} && b !in {c, x, y} && c !in {x, y} && x != y
    ensures |{a, b, c, x, y}| == 5
  {
    assert {a, b, c, x, y} == {a} + ({b} + ({c} + ({x} + {y})));
  }

  lemma OneDotNought()
    ensures VersionIn(DayCopy('1')) == Some("1.0")
  {
    hide VersionIn;
    var from := "1.0";
    assert !Contains(from, "-to-") && !(|from| >= 3 && from[|from| - 3..] == "-to");
    VersionReadsBack("2026010" + ['1'] + "-000000", from, "1.1");
  }

  /** The version in a backup's name reads back exactly when it does not hide the separator. */
  lemma VersionReadsBack(stamp: string, from: string, version: string)
    requires |stamp| == STAMP_LEN
    ensures VersionIn(UpgradeName(stamp, from, version)) == Some(from) <==>
            !Contains(from, "-to-") && !(|from| >= 3 && from[|from| - 3..] == "-to")
  {
    var name := UpgradeName(stamp, from, version);
    var rest := from + "-to-" + version;
    assert name == stamp + "-" + rest;
    assert name[STAMP_LEN] == '-' && name[STAMP_LEN + 1..] == rest;
    FirstSeparator(from, version);
  }

  lemma FirstSeparator(from: string, version: string)
    ensures var i := IndexOf(from + "-to-" + version, "-to-");
            i.Some? && ((from + "-to-" + version)[..i.value] == from <==>
                        !Contains(from, "-to-") && !(|from| >= 3 && from[|from| - 3..] == "-to"))
  {
    hide IndexOf;
    var rest := from + "-to-" + version;
    assert OccursAt(rest, "-to-", |from|);
    assert Contains(rest, "-to-");
    var i := IndexOf(rest, "-to-").value;
    assert rest[..|from|] == from;
    if Contains(from, "-to-") {
      var k :| 0 <= k <= |from| && OccursAt(from, "-to-", k);
      assert rest[k..k + 4] == from[k..k + 4];
      assert OccursAt(rest, "-to-", k) && k < |from|;
    }
    if |from| >= 3 && from[|from| - 3..] == "-to" {
      var k := |from| - 3;
      assert rest[k..k + 4] == from[k..] + ['-'];
      assert OccursAt(rest, "-to-", k);
    }
    if i < |from| {
      EarlierSeparator(from, version, i);
    }
  }

  lemma EarlierSeparator(from: string, version: string, i: nat)
    requires i < |from| && OccursAt(from + "-to-" + version, "-to-", i)
    ensures Contains(from, "-to-") || (|from| >= 3 && from[|from| - 3..] == "-to")
  {
    var rest := from + "-to-" + version;
    var part := rest[i..i + 4];
    assert rest[i] == part[0] && rest[i + 1] == part[1] && rest[i + 2] == part[2] && rest[i + 3] == part[3];
    assert rest[|from|] == '-';
    if i + 4 <= |from| {
      assert from[i..i + 4] == rest[i..i + 4];
      assert OccursAt(from, "-to-", i);
    } else if i + 3 == |from| {
      assert from[i..] == [rest[i], rest[i + 1], rest[i + 2]];
    }
  }

  // --- failing launches -------------------------------------------------------

  /** One launch whose server never answered: the copy if one is due, whatever the
      server wrote before it died, and a restore if somebody asked for the one offered.
      `stamp` and `restoredAt` are what the clock said when each was named. */
  datatype Launch = Launch(version: string, stamp: string, after: Files, restoredAt: Option<string>)

  /** The name a copy made by this launch would get. */
  function CopyName(d: Disk, l: Launch): string {
    UpgradeName(l.stamp, FromVersion(d.record), l.version)
  }

  ghost predicate FailedLaunch(d: Disk, e: Disk, l: Launch) {
    exists m: Disk, r ::
      UpgradeCopied(d, m, l.version, CopyName(d, l), r) && AfterFailure(m.(live := l.after), e, r, l)
  }

  ghost predicate AfterFailure(m: Disk, e: Disk, r: Option<Backup>, l: Launch) {
    if l.restoredAt.None? then e == m
    else r.Some? && PutBack(m, e, r.value.dir, FailedName(l.restoredAt.value, l.version))
  }

  ghost predicate FailingRun(states: seq<Disk>, launches: seq<Launch>) {
    && |states| == |launches| + 1
    && forall i :: 0 <= i < |launches| ==> FailedLaunch(states[i], states[i + 1], launches[i]) && Stamped(launches[i])
  }

  /** The clock's stamps have their fixed width. */
  predicate Stamped(l: Launch) {
    |l.stamp| == STAMP_LEN && (l.restoredAt.Some? ==> |l.restoredAt.value| == STAMP_LEN)
  }

  /** A directory set aside never takes a copy's name, whatever the clock says. */
  lemma NamesApart(s: string, failed: string, t: string, from: string, version: string)
    requires |s| == |t| == STAMP_LEN && !StartsWith(from, "failed")
    ensures FailedName(s, failed) != UpgradeName(t, from, version)
  {
    var x, y := FailedName(s, failed), UpgradeName(t, from, version);
    assert x[STAMP_LEN + 1..] == "failed-" + failed && y[STAMP_LEN + 1..] == from + "-to-" + version;
    var p, q := "failed-" + failed, from + "-to-" + version;
    assert p[..6] == "failed" && forall i :: 0 <= i < 6 ==> p[i] != '-';
    assert if |from| < 6 then q[|from|] == '-' else q[..6] == from[..6];
  }

  ghost predicate Holds(d: Disk, name: string, copy: Files) {
    d.record.restoredFrom == Some(name) && name in d.backups && d.backups[name] == copy
  }

  /** One failing launch over a restored copy keeps it, and leaves its bytes live exactly when the
      launch ended in a restore or its server left them so. */
  lemma LaunchHolds(d: Disk, e: Disk, l: Launch, name: string, copy: Files)
    requires FailedLaunch(d, e, l) && Holds(d, name, copy)
    requires l.restoredAt.Some? ==> FailedName(l.restoredAt.value, l.version) != name
    ensures Holds(e, name, copy)
    ensures e.live == copy <==> l.restoredAt.Some? || l.after == copy
  {
  }

  /** After a first restore and until the office opens: through any number of
      failing launches and further restores the copy is there unchanged, it is the
      one offered, and no other copy is made. */
  lemma {:induction false} HeldUntilTheOfficeOpens(states: seq<Disk>, launches: seq<Launch>, stamp: string,
                                                   from: string, version: string, copy: Files)
    requires FailingRun(states, launches) && |stamp| == STAMP_LEN && !StartsWith(from, "failed")
    requires Holds(states[0], UpgradeName(stamp, from, version), copy)
    ensures forall i :: 0 <= i < |states| ==> Holds(states[i], UpgradeName(stamp, from, version), copy)
    ensures forall i, m, r, v, dir :: 0 <= i < |states| && UpgradeCopied(states[i], m, v, dir, r) ==>
              m == states[i] && r == if Main in states[i].live then
                  Some(Backup(UpgradeName(stamp, from, version), false)) else None
  {
    hide UpgradeName, FailedName;
    var name := UpgradeName(stamp, from, version);
    if launches == [] {
    } else {
      assert FailedLaunch(states[0], states[1], launches[0]);
      if launches[0].restoredAt.Some? {
        NamesApart(launches[0].restoredAt.value, launches[0].version, stamp, from, version);
      }
      LaunchHolds(states[0], states[1], launches[0], name, copy);
      HeldUntilTheOfficeOpens(states[1..], launches[1..], stamp, from, version, copy);
      forall i | 1 <= i < |states| ensures Holds(states[i], name, copy) {
        assert states[i] == states[1..][i - 1];
      }
    }
  }

  /** The upgrade itself, once restored, starts such a run: the copy its launch made is the one held,
      and it is the database as it was before the upgrade. */
  lemma FirstRestoreHolds(states: seq<Disk>, launches: seq<Launch>)
    requires FailingRun(states, launches) && launches != [] && launches[0].restoredAt.Some?
    requires Main in states[0].live && states[0].record.restoredFrom.None?
    requires states[0].record.version != Some(launches[0].version) && !StartsWith(FromVersion(states[0].record),
        "failed")
    requires CopyName(states[0], launches[0]) !in states[0].backups
    ensures states[1].live == states[0].live
    ensures forall i :: 1 <= i < |states| ==> Holds(states[i], CopyName(states[0], launches[0]), states[0].live)
  {
    hide UpgradeName, FailedName, FailedLaunch, Holds;
    var d, l := states[0], launches[0];
    var name := CopyName(d, l);
    assert FailedLaunch(states[0], states[0 + 1], launches[0]);
    NamesApart(l.restoredAt.value, l.version, l.stamp, FromVersion(d.record), l.version);
    FirstLaunchHolds(d, states[1], l);
    HeldUntilTheOfficeOpens(states[1..], launches[1..], l.stamp, FromVersion(d.record), l.version, d.live);
    forall i | 1 <= i < |states| ensures Holds(states[i], name, d.live) {
      assert states[i] == states[1..][i - 1];
    }
  }

  lemma FirstLaunchHolds(d: Disk, e: Disk, l: Launch)
    requires FailedLaunch(d, e, l) && l.restoredAt.Some?
    requires Main in d.live && d.record.restoredFrom.None? && d.record.version != Some(l.version)
    requires CopyName(d, l) !in d.backups && FailedName(l.restoredAt.value, l.version) != CopyName(d, l)
    ensures e.live == d.live && Holds(e, CopyName(d, l), d.live)
  {
    hide UpgradeName, FailedName, Rotated;
    var name := CopyName(d, l);
    var m: Disk, r :| UpgradeCopied(d, m, l.version, name, r) && AfterFailure(m.(live := l.after), e, r, l);
    CopyHolds(d, m, l.version, r.value);
    RestoreHolds(m.(live := l.after), e, name, FailedName(l.restoredAt.value, l.version));
  }

  /** `Backup.fresh == false` is documented to mean the live bytes are still the copy's. The code
      decides it from the record alone. In every failing run it is said at every state with a
      database, and it is true of one reached by a launch exactly when that launch ended in a
      restore or its server left those very bytes. */
  lemma UnopenedMayBeWritten(states: seq<Disk>, launches: seq<Launch>, stamp: string, from: string, version: string,
                             copy: Files, i: nat)
    requires FailingRun(states, launches) && |stamp| == STAMP_LEN && !StartsWith(from, "failed")
    requires Holds(states[0], UpgradeName(stamp, from, version), copy) && 1 <= i < |states| && Main in states[i].live
    ensures var name := UpgradeName(stamp, from, version);
            && (forall m, r, v, dir :: UpgradeCopied(states[i], m, v, dir, r) ==> r == Some(Backup(name, false)))
            && (states[i].live == HeldIn(states[i].backups, name) <==>
                  launches[i - 1].restoredAt.Some? || launches[i - 1].after == copy)
  {
    hide UpgradeName, FailedName;
    HeldUntilTheOfficeOpens(states, launches, stamp, from, version, copy);
    var l := launches[i - 1];
    if l.restoredAt.Some? { NamesApart(l.restoredAt.value, l.version, stamp, from, version); }
    assert FailedLaunch(states[i - 1], states[i - 1 + 1], l);
    LaunchHolds(states[i - 1], states[i], l, UpgradeName(stamp, from, version), copy);
  }

  /** A run in which it is wrong: one launch whose server wrote before it failed. */
  lemma NotFreshAndNotTheSame()
    ensures var name := UpgradeName("20260101-000000", "1.0", "2.0");
            var held: Files, written: Files := map[Main := [1]], map[Main := [2]];
            var d := Disk(held, map[name := held], Record(Some("1.0"), Some(name)));
            var e := d.(live := written);
            && FailingRun([d, e], [Launch("2.0", "20260102-000000", written, None)]) && Holds(d, name, d.live)
            && UpgradeCopied(e, e, "2.0", "", Some(Backup(name, false))) && e.live != e.backups[name]
  {
    hide UpgradeName;
    var name := UpgradeName("20260101-000000", "1.0", "2.0");
    var held: Files, written: Files := map[Main := [1]], map[Main := [2]];
    var d := Disk(held, map[name := held], Record(Some("1.0"), Some(name)));
    var l := Launch("2.0", "20260102-000000", written, None);
    assert UpgradeCopied(d, d, l.version, CopyName(d, l), Some(Backup(name, false)));
    assert FailedLaunch(d, d.(live := written), l);
    assert held[Main] != written[Main];
  }
}
