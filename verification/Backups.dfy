/** The personal office's database, its backups, and the record kept between
    launches: copying aside before an upgrade, pruning, and putting a copy back.
 */
module Backups {
  import opened Text
  import opened Stamp

  const BACKUPS_KEPT := 5

  /** The three files of one SQLite database; they travel together. */
  datatype DbFile = Main | Wal | Shm
  const DB_FILES := [Main, Wal, Shm]

  type Bytes = seq<bv8>
  /** Which of the three files are there, and what they hold. */
  type Files = map<DbFile, Bytes>

  datatype Record = Record(version: Option<string>, restoredFrom: Option<string>)
  datatype Backup = Backup(dir: string, isFresh: bool)
  datatype Restored = Restored(aside: string, from: Option<string>)
  datatype Result<+T> = Ok(value: T) | NoBackup | NotRestorable

  /** A path handed to a restore: a directory directly under backups, or anything else. */
  datatype Path = InBackups(name: string) | Elsewhere

  /** Everything the office keeps on disk, as one value. */
  datatype Disk = Disk(live: Files, backups: map<string, Files>, record: Record)

  // --- names ----------------------------------------------------------------

  function UpgradeName(stamp: string, from: string, version: string): string {
    stamp + "-" + from + "-to-" + version
  }

  function FailedName(stamp: string, version: string): string {
    stamp + "-failed-" + version
  }

  /** The version before the first `-to-` after the stamp, if the name has that shape. */
  function VersionIn(name: string): Option<string> {
    if |name| <= STAMP_LEN || name[STAMP_LEN] != '-' then None
    else
      var rest := name[STAMP_LEN + 1..];
      match IndexOf(rest, "-to-")
      case None => None
      case Some(i) => Some(rest[..i])
  }

  // --- pruning --------------------------------------------------------------

  ghost function Members(s: seq<string>): set<string> {
    set n | n in s
  }

  ghost predicate Sorted(s: seq<string>) {
    forall i, j :: 0 <= i < j < |s| ==> Before(s[i], s[j])
  }

  /** What a rotation leaves: everything while there is room; otherwise exactly
      `BACKUPS_KEPT`, the kept one among them, and of the others the newest. */
  ghost predicate Rotated(before: set<string>, after: set<string>, keep: string) {
    && after <= before
    && (|before| <= BACKUPS_KEPT ==> after == before)
    && (|before| > BACKUPS_KEPT ==> |after| == BACKUPS_KEPT)
    && (keep in before ==> keep in after)
    && forall gone, left :: gone in before - after && left in after && left != keep ==> Before(gone, left)
  }

  ghost predicate Pruned(before: map<string, Files>, after: map<string, Files>, keep: string) {
    && Rotated(before.Keys, after.Keys, keep)
    && forall name :: name in after ==> after[name] == before[name]
  }

  /** The rotation is decided: no other set of directories answers the description. */
  lemma RotationUnique(before: set<string>, a: set<string>, b: set<string>, keep: string)
    requires keep in before && Rotated(before, a, keep) && Rotated(before, b, keep)
    ensures a == b
  {
    if x :| x in a && x !in b {
      if y :| y in b && y !in a {
        assert Before(y, x) && Before(x, y);
        BeforeTransitive(x, y, x);
        BeforeIrreflexive(x);
      }
      assert b < a;
      StrictlySmaller(b, a);
    } else if y :| y in b && y !in a {
      assert a < b;
      StrictlySmaller(a, b);
    }
  }

  lemma StrictlySmaller<T>(a: set<T>, b: set<T>)
    requires a < b
    ensures |a| < |b|
  {
    var x :| x in b && x !in a;
    Subset(a, b - {x});
  }

  lemma {:induction false} Subset<T>(a: set<T>, b: set<T>)
    requires a <= b
    ensures |a| <= |b|
  {
    if x :| x in a { Subset(a - {x}, b - {x}); }
  }

  // --- what the two operations do to the disk ---------------------------------

  function HeldIn(backups: map<string, Files>, dir: string): Files {
    if dir in backups then backups[dir] else map[]
  }

  function FromVersion(record: Record): string {
    if record.version.Some? then record.version.value else "unknown"
  }

  /** `backup_before_upgrade` with `dir` as the name of a new copy: what it returns and leaves on disk. */
  ghost predicate UpgradeCopied(d: Disk, e: Disk, version: string, dir: string, r: Option<Backup>) {
    if Main !in d.live then
      r == None && e == d
    else if d.record.restoredFrom.Some? && d.record.restoredFrom.value in d.backups then
      r == Some(Backup(d.record.restoredFrom.value, false)) && e == d
    else if d.record.version == Some(version) then
      r == None && e == d
    else
      && r == Some(Backup(dir, true))
      && e.live == d.live && e.record == d.record
      && Pruned(d.backups[dir := HeldIn(d.backups, dir) + d.live], e.backups, dir)
  }

  /** `restore_backup` of `name`, the live files going to `aside`. */
  ghost predicate PutBack(d: Disk, e: Disk, name: string, aside: string) {
    var moved := d.backups[aside := HeldIn(d.backups, aside) + d.live];
    && name in d.backups && Main in d.backups[name]
    && e.live == moved[name]
    && e.record == Record(if VersionIn(name).Some? then VersionIn(name) else d.record.version, Some(name))
    && Pruned(moved, e.backups, name)
  }

  // --- the office's directory -------------------------------------------------

  class OfficeDir {
    var live: Files
    var backups: map<string, Files>
    var record: Record

    constructor ()
      ensures Snapshot() == Disk(map[], map[], Record(None, None))
    {
      live, backups, record := map[], map[], Record(None, None);
    }

    function Snapshot(): Disk
      reads this
    {
      Disk(live, backups, record)
    }

    /** The directory listing, sorted the way `dirs.sort()` sorts it. */
    method ListSorted() returns (dirs: seq<string>)
      ensures Sorted(dirs) && Members(dirs) == backups.Keys
    {
      dirs := [];
      var unread := backups.Keys;
      while unread != {}
        invariant unread <= backups.Keys
        invariant Sorted(dirs) && Members(dirs) == backups.Keys - unread
        decreases unread
      {
        var name :| name in unread;
        unread := unread - {name};
        var at := 0;
        while at < |dirs| && Before(dirs[at], name)
          invariant 0 <= at <= |dirs|
          invariant forall i :: 0 <= i < at ==> Before(dirs[i], name)
        {
          at := at + 1;
        }
        InsertSorted(dirs, at, name);
        assert Members(dirs[..at] + [name] + dirs[at..]) == Members(dirs) + {name} by {
          assert dirs == dirs[..at] + dirs[at..];
        }
        dirs := dirs[..at] + [name] + dirs[at..];
      }
    }

    /** Drop the oldest directories but never `keep`, stepping over it by index. */
    method Prune(keep: string)
      modifies this`backups
      ensures Pruned(old(backups), backups, keep)
    {
      var dirs := ListSorted();
      SortedCount(dirs);
      var oldest := 0;
      while |dirs| > BACKUPS_KEPT && oldest < |dirs|
        invariant Sorted(dirs) && Members(dirs) == backups.Keys && |dirs| == |backups.Keys|
        invariant oldest == 0 || (oldest == 1 && dirs != [] && dirs[0] == keep)
        invariant backups.Keys <= old(backups.Keys)
        invariant forall n :: n in backups ==> backups[n] == old(backups)[n]
        invariant |dirs| >= BACKUPS_KEPT || backups == old(backups)
        invariant |old(backups).Keys| <= BACKUPS_KEPT ==> backups == old(backups)
        invariant keep in old(backups) ==> keep in backups
        invariant forall gone, left :: gone in old(backups.Keys) - backups.Keys && left in backups && left != keep ==>
            Before(gone, left)
        decreases |dirs| - oldest
      {
        BeforeIrreflexive(keep);
        if dirs[oldest] == keep {
          oldest := oldest + 1;
          continue;
        }
        var gone := dirs[oldest];
        RemoveSorted(dirs, oldest);
        backups := backups - {gone};
        dirs := dirs[..oldest] + dirs[oldest + 1..];
        SortedCount(dirs);
      }
    }

    method BackupBeforeUpgrade(version: string, stamp: string) returns (r: Option<Backup>)
      modifies this
      ensures UpgradeCopied(old(Snapshot()), Snapshot(), version, UpgradeName(stamp, FromVersion(old(record)),
          version), r)
    {
      if Main !in live {
        return None;
      }
      if record.restoredFrom.Some? {
        var dir := record.restoredFrom.value;
        if dir in backups {
          return Some(Backup(dir, false));
        }
      }
      if record.version == Some(version) {
        return None;
      }
      var dir := UpgradeName(stamp, FromVersion(record), version);
      backups := backups[dir := HeldIn(backups, dir)];
      NonePicked(old(Snapshot()), dir, dir);
      for i := 0 to |DB_FILES|
        invariant Snapshot() == CopiedSoFar(old(Snapshot()), dir, Done(i))
      {
        CopyStep(old(Snapshot()), dir, i);
        if DB_FILES[i] in live {
          backups := backups[dir := backups[dir][DB_FILES[i] := live[DB_FILES[i]]]];
        }
      }
      AllPicked(old(live));
      Prune(dir);
      return Some(Backup(dir, true));
    }

    /** The three live files go to `aside`; the three of `name` take their place. */
    method SwapLive(aside: string, name: string)
      requires name in backups
      modifies this`live, this`backups
      ensures backups == old(backups)[aside := HeldIn(old(backups), aside) + old(live)]
      ensures live == backups[name]
    {
      backups := backups[aside := HeldIn(backups, aside)];
      NonePicked(old(Snapshot()), aside, name);
      for i := 0 to |DB_FILES|
        invariant Snapshot() == SwappedSoFar(old(Snapshot()), aside, name, Done(i))
      {
        SwapStep(old(Snapshot()), aside, name, i);
        SwapOne(DB_FILES[i], aside, name);
      }
      AllSwapped(old(Snapshot()), aside, name);
    }

    method SwapOne(file: DbFile, aside: string, name: string)
      requires aside in backups && name in backups
      modifies this`live, this`backups
      ensures backups == if file in old(live) then old(backups)[aside := old(backups)[aside][file := old(live)[file]]]
          else old(backups)
      ensures live == if file in backups[name] then (old(live) - {file})[file := backups[name][file]]
          else old(live) - {file}
    {
      if file in live {
        backups := backups[aside := backups[aside][file := live[file]]];
        live := live - {file};
      }
      if file in backups[name] {
        live := live[file := backups[name][file]];
      }
    }

    method RestoreBackup(backup: Path, version: string, stamp: string) returns (r: Result<Restored>)
      modifies this
      ensures !r.NotRestorable?
      ensures r.NoBackup? <==> !(backup.InBackups? && Main in HeldIn(old(backups), backup.name))
      ensures r.NoBackup? ==> Snapshot() == old(Snapshot())
      ensures r.Ok? ==> PutBack(old(Snapshot()), Snapshot(), backup.name, FailedName(stamp, version))
      ensures r.Ok? ==> r.value == Restored(FailedName(stamp, version), VersionIn(backup.name))
    {
      if backup.Elsewhere? || backup.name !in backups || Main !in backups[backup.name] {
        return NoBackup;
      }
      var aside := FailedName(stamp, version);
      SwapLive(aside, backup.name);
      var from := VersionIn(backup.name);
      if from.Some? {
        record := record.(version := from);
      }
      record := record.(restoredFrom := Some(backup.name));
      Prune(backup.name);
      return Ok(Restored(aside, from));
    }
  }

  // --- lemmas the loops use ---------------------------------------------------

  ghost function Done(i: nat): set<DbFile> {
    if i == 0 then {} else if i == 1 then {Main} else if i == 2 then {Main, Wal} else {Main, Wal, Shm}
  }

  ghost function Picked(f: Files, which: set<DbFile>): Files {
    map file | file in f && file in which :: f[file]
  }

  /** The disk while the copying loop has dealt with the files in `done`. */
  ghost function CopiedSoFar(d: Disk, dir: string, done: set<DbFile>): Disk {
    d.(backups := d.backups[dir := HeldIn(d.backups, dir) + Picked(d.live, done)])
  }

  ghost function LiveSoFar(live: Files, source: Files, done: set<DbFile>): Files {
    map file | file in live.Keys + source.Keys && (if file in done then file in source else file in live)
      :: if file in done then source[file] else live[file]
  }

  /** The disk while the restoring loop has dealt with the files in `done`. */
  ghost function SwappedSoFar(d: Disk, aside: string, name: string, done: set<DbFile>): Disk {
    var moved := CopiedSoFar(d, aside, done).backups;
    Disk(LiveSoFar(d.live, HeldIn(moved, name), done), moved, d.record)
  }

  lemma PickStep(f: Files, i: nat)
    requires i < |DB_FILES|
    ensures DB_FILES[i] !in Done(i) && Done(i + 1) == Done(i) + {DB_FILES[i]}
    ensures Picked(f, Done(i + 1)) == if DB_FILES[i] in f then Picked(f, Done(i))[DB_FILES[i] := f[DB_FILES[i]]]
        else Picked(f, Done(i))
  {
  }

  lemma NonePicked(d: Disk, aside: string, name: string)
    ensures CopiedSoFar(d, aside, Done(0)) == d.(backups := d.backups[aside := HeldIn(d.backups, aside)])
    ensures SwappedSoFar(d, aside, name, Done(0)) == d.(backups := d.backups[aside := HeldIn(d.backups, aside)])
  {
    assert HeldIn(d.backups, aside) + Picked(d.live, {}) == HeldIn(d.backups, aside);
    assert forall source: Files :: LiveSoFar(d.live, source, {}) == d.live;
  }

  lemma CopyStep(d: Disk, dir: string, i: nat)
    requires i < |DB_FILES|
    ensures var file := DB_FILES[i];
            var now := CopiedSoFar(d, dir, Done(i));
            CopiedSoFar(d, dir, Done(i + 1)) ==
            if file in d.live then now.(backups := now.backups[dir := now.backups[dir][file := d.live[file]]]) else now
  {
    var file, held := DB_FILES[i], HeldIn(d.backups, dir);
    PickStep(d.live, i);
    if file in d.live {
      assert held + Picked(d.live, Done(i + 1)) == (held + Picked(d.live, Done(i)))[file := d.live[file]];
    }
  }

  lemma LiveStep(live: Files, source: Files, source': Files, done: set<DbFile>, file: DbFile)
    requires file !in done && source - {file} == source' - {file}
    ensures var now, next := LiveSoFar(live, source, done), LiveSoFar(live, source', done + {file});
            && (file in now <==> file in live) && (file in live ==> now[file] == live[file])
            && next == if file in source' then (now - {file})[file := source'[file]] else now - {file}
  {
    var now, next := LiveSoFar(live, source, done), LiveSoFar(live, source', done + {file});
    var expected := if file in source' then (now - {file})[file := source'[file]] else now - {file};
    forall f: DbFile
      ensures f in next <==> f in expected
      ensures f in next ==> next[f] == expected[f]
    {
      if f != file {
        assert f in source <==> f in source - {file};
        assert f in source' <==> f in source' - {file};
        assert f in source ==> (source - {file})[f] == (source' - {file})[f];
      }
    }
    assert next == expected;
  }

  lemma SwapStep(d: Disk, aside: string, name: string, i: nat)
    requires i < |DB_FILES| && name in d.backups
    ensures var file := DB_FILES[i];
            var now, next := SwappedSoFar(d, aside, name, Done(i)), SwappedSoFar(d, aside, name, Done(i + 1));
            && (file in now.live <==> file in d.live)
            && (file in d.live ==> now.live[file] == d.live[file])
            && next.backups == (if file in d.live then now.backups[aside := now.backups[aside][file := d.live[file]]]
                else now.backups)
            && next.live == (if file in next.backups[name] then (now.live - {file})[file := next.backups[name][file]]
                else now.live - {file})
  {
    PickStep(d.live, i);
    CopyStep(d, aside, i);
    var now, next := CopiedSoFar(d, aside, Done(i)).backups, CopiedSoFar(d, aside, Done(i + 1)).backups;
    assert now[name] - {DB_FILES[i]} == next[name] - {DB_FILES[i]};
    LiveStep(d.live, now[name], next[name], Done(i), DB_FILES[i]);
  }

  lemma AllPicked(f: Files)
    ensures Picked(f, Done(3)) == f
  {
    forall file | file in f ensures file in Done(3) {
      match file { case Main => case Wal => case Shm => }
    }
  }

  lemma AllSwapped(d: Disk, aside: string, name: string)
    requires name in d.backups
    ensures var moved := d.backups[aside := HeldIn(d.backups, aside) + d.live];
            SwappedSoFar(d, aside, name, Done(3)) == Disk(moved[name], moved, d.record)
  {
    AllPicked(d.live);
    var moved := d.backups[aside := HeldIn(d.backups, aside) + d.live];
    AllPicked(moved[name]);
    forall file | file in d.live ensures file in Done(3) {
      match file { case Main => case Wal => case Shm => }
    }
    assert LiveSoFar(d.live, moved[name], Done(3)) == moved[name];
  }

  lemma InsertSorted(s: seq<string>, at: nat, x: string)
    requires Sorted(s) && at <= |s| && x !in s
    requires forall i :: 0 <= i < at ==> Before(s[i], x)
    requires at < |s| ==> !Before(s[at], x)
    ensures Sorted(s[..at] + [x] + s[at..])
  {
    forall j | at <= j < |s| ensures Before(x, s[j]) {
      BeforeTotal(x, s[at]);
      if at < j { BeforeTransitive(x, s[at], s[j]); }
    }
  }

  lemma RemoveSorted(s: seq<string>, at: nat)
    requires Sorted(s) && at < |s|
    ensures Sorted(s[..at] + s[at + 1..])
    ensures Members(s[..at] + s[at + 1..]) == Members(s) - {s[at]}
    ensures forall i :: at < i < |s| ==> Before(s[at], s[i])
  {
    forall i | 0 <= i < |s| && i != at ensures s[i] != s[at] {
      BeforeIrreflexive(s[at]);
    }
    forall n | n in s && n != s[at] ensures n in s[..at] + s[at + 1..] {
      var i :| 0 <= i < |s| && s[i] == n;
      assert (s[..at] + s[at + 1..])[if i < at then i else i - 1] == n;
    }
  }

  lemma {:induction false} SortedCount(s: seq<string>)
    requires Sorted(s)
    ensures |Members(s)| == |s|
  {
    if s == [] {
    } else {
      var init := s[..|s| - 1];
      SortedCount(init);
      assert s == init + [s[|s| - 1]];
      assert Members(s) == Members(init) + {s[|s| - 1]};
      BeforeIrreflexive(s[|s| - 1]);
    }
  }
}
