/** The personal office's supervisor: one launch of the app, its restart budget,
    and the restore offered when the server never came up.
 */
module Supervisor {
  import opened Text
  import opened Backups
  import opened BackupLaws

  const MAX_RESTARTS := 3
  /** 300 s, in the nanoseconds the monotonic clock counts. */
  const CRASH_WINDOW := 300_000_000_000

  datatype Phase = Starting | Ready | Failed | PutBackAgain | Stopped

  /** How one run of the server ended: on its own (or stopped for not answering in
      time, which is accounted the same way), or because somebody asked. */
  datatype End = Exited(at: nat) | AskedToStop

  /** One run of the server: whether it answered, what it left of the database, how it ended. */
  datatype Attempt = Attempt(ready: bool, after: Files, end: End)

  // --- the restart budget -----------------------------------------------------

  /** Of the exits in `times`, those less than a window before `now`, in their order. */
  function Recent(times: seq<nat>, now: nat): seq<nat> {
    if times == [] then []
    else
      var last := times[|times| - 1];
      Recent(times[..|times| - 1], now) + if now - last < CRASH_WINDOW then [last] else []
  }

  ghost predicate Monotone(times: seq<nat>) {
    forall i, j :: 0 <= i <= j < |times| ==> times[i] <= times[j]
  }

  /** Exit number `k` is one too many: the third before it is under a window old. */
  predicate OverBudget(times: seq<nat>, k: nat)
    requires k < |times|
  {
    k >= MAX_RESTARTS && times[k] - times[k - MAX_RESTARTS] < CRASH_WINDOW
  }

  /** Forgetting twice, at two moments, is forgetting once at the later one. */
  lemma {:induction false} RecentTwice(times: seq<nat>, then_: nat, now: nat)
    requires then_ <= now
    ensures Recent(Recent(times, then_), now) == Recent(times, now)
  {
    if times == [] {
    } else {
      var init, last := times[..|times| - 1], times[|times| - 1];
      RecentTwice(init, then_, now);
      if then_ - last < CRASH_WINDOW {
        assert (Recent(init, then_) + [last])[..|Recent(init, then_)|] == Recent(init, then_);
      } else {
        assert Recent(times, then_) == Recent(init, then_);
      }
    }
  }

  lemma {:induction false} RecentBound(times: seq<nat>, now: nat, old_: nat)
    requires Monotone(times) && old_ <= |times|
    requires old_ > 0 ==> now - times[old_ - 1] >= CRASH_WINDOW
    ensures |Recent(times, now)| <= |times| - old_
  {
    if times == [] {
    } else {
      var init := times[..|times| - 1];
      if old_ == |times| {
        RecentBound(init, now, old_ - 1);
      } else {
        RecentBound(init, now, old_);
      }
    }
  }

  lemma {:induction false} AllRecent(times: seq<nat>, now: nat, from: nat)
    requires Monotone(times) && from < |times| && now - times[from] < CRASH_WINDOW
    ensures |Recent(times, now)| >= |times| - from
  {
    if from < |times| - 1 { AllRecent(times[..|times| - 1], now, from); }
  }

  /** Counting the retained exits is looking at the third before the last. */
  lemma BudgetByCount(times: seq<nat>)
    requires times != [] && Monotone(times)
    ensures var k := |times| - 1;
            |Recent(times, times[k])| > MAX_RESTARTS <==> OverBudget(times, k)
  {
    var k := |times| - 1;
    if OverBudget(times, k) {
      AllRecent(times, times[k], k - MAX_RESTARTS);
    } else if k >= MAX_RESTARTS {
      RecentBound(times, times[k], k - MAX_RESTARTS + 1);
    } else {
      RecentBound(times, times[k], 0);
    }
  }

  /** Four exits under five minutes from first to last are one too many; at five minutes they are not. */
  lemma FiveMinutes(first: nat, second: nat, third: nat, last: nat)
    requires first <= second <= third <= last
    ensures OverBudget([first, second, third, last], 3) <==> last - first < 5 * 60 * 1_000_000_000
  {
  }

  // --- one launch -------------------------------------------------------------

  ghost predicate AllExited(attempts: seq<Attempt>) {
    forall i :: 0 <= i < |attempts| ==> attempts[i].end.Exited?
  }

  ghost function Times(attempts: seq<Attempt>): seq<nat>
    requires AllExited(attempts)
  {
    seq(|attempts|, i requires 0 <= i < |attempts| => attempts[i].end.at)
  }

  /** The clock never goes back from one exit to a later one. */
  ghost predicate ClockMonotone(attempts: seq<Attempt>) {
    forall i, j :: 0 <= i <= j < |attempts| && attempts[i].end.Exited? && attempts[j].end.Exited?
      ==> attempts[i].end.at <= attempts[j].end.at
  }

  /** Attempt `k` ended on its own, and by then the restarts were used up. */
  ghost predicate GivesUpAt(attempts: seq<Attempt>, k: nat)
    requires k < |attempts|
  {
    AllExited(attempts[..k + 1]) && OverBudget(Times(attempts[..k + 1]), k)
  }

  predicate AnyReady(attempts: seq<Attempt>) {
    exists i :: 0 <= i < |attempts| && attempts[i].ready
  }

  /** What the supervisor keeps in memory across attempts. */
  datatype Tally = Tally(crashes: seq<nat>, everReady: bool, phase: Phase)

  function Account(t: Tally, a: Attempt): Tally {
    var everReady := t.everReady || a.ready;
    if a.end.AskedToStop? then Tally(t.crashes, everReady, Stopped)
    else
      var crashes := Recent(t.crashes, a.end.at) + [a.end.at];
      Tally(crashes, everReady, if |crashes| > MAX_RESTARTS then Failed else Starting)
  }

  /** The tally after `k` attempts; a launch that has ended takes no further ones. */
  function After(attempts: seq<Attempt>, k: nat): Tally
    requires k <= |attempts|
  {
    if k == 0 then Tally([], false, Starting)
    else if After(attempts, k - 1).phase == Starting then Account(After(attempts, k - 1), attempts[k - 1])
    else After(attempts, k - 1)
  }

  /** What one run of the server does to the disk: it writes, and answering spends the record. */
  function Serve(d: Disk, version: string, a: Attempt): Disk {
    Disk(a.after, d.backups, if a.ready then Record(Some(version), None) else d.record)
  }

  function Served(d: Disk, version: string, attempts: seq<Attempt>, k: nat): Disk
    requires k <= |attempts|
  {
    if k == 0 then d else Serve(Served(d, version, attempts, k - 1), version, attempts[k - 1])
  }

  class Office {
    const version: string
    const dir: OfficeDir
    var phase: Phase
    var backup: Option<string>
    var restorable: bool
    var everReady: bool
    var crashes: seq<nat>
    var restarts: nat
    var stopping: bool

    constructor (dir: OfficeDir, version: string)
      ensures this.dir == dir && this.version == version && Launching()
    {
      this.dir, this.version := dir, version;
      phase, backup, restorable, everReady := Starting, None, false, false;
      crashes, restarts, stopping := [], 0, false;
    }

    predicate Launching()
      reads this
    {
      phase == Starting && backup == None && !restorable && !everReady && crashes == [] && restarts == 0 && !stopping
    }

    /** A backup is offered only by a launch that failed without ever answering, whether or not it
        was told to stop after that. */
    predicate Valid()
      reads this
    {
      restorable ==> (phase == Failed || phase == Stopped) && backup.Some? && !everReady
    }

    function InMemory(): Tally
      reads this
    {
      Tally(crashes, everReady, phase)
    }

    /** Run the server until it is stopped or has used up its restarts. `m` and `r` are
        the disk and the answer of the one backup taken, before the first attempt. */
    method Supervise(attempts: seq<Attempt>, stamp: string) returns (ran: nat, ghost m: Disk, ghost r: Option<Backup>)
      requires Launching()
      modifies this, dir
      ensures Valid() && ran <= |attempts|
      ensures InMemory() == After(attempts, ran)
      ensures ran > 0 ==> After(attempts, ran - 1).phase == Starting
      ensures ran < |attempts| ==> phase != Starting
      ensures restorable <==> phase == Failed && backup.Some? && !everReady
      ensures restarts == if ran == 0 || phase == Starting then ran else ran - 1
      ensures attempts != [] ==> UpgradeCopied(old(dir.Snapshot()), m, version,
          UpgradeName(stamp, FromVersion(old(dir.record)), version), r)
      ensures attempts == [] ==> m == old(dir.Snapshot()) && r == None
      ensures backup == (if r.Some? then Some(r.value.dir) else None)
      ensures dir.Snapshot() == Served(m, version, attempts, ran)
    {
      ran := 0;
      if attempts == [] {
        m, r := dir.Snapshot(), None;
        return;
      }
      // outside the loop, so any number of attempts makes at most this one copy
      var made := dir.BackupBeforeUpgrade(version, stamp);
      if made.Some? {
        backup := Some(made.value.dir);
      }
      m, r := dir.Snapshot(), made;
      ran := KeepRunning(attempts);
    }

    method KeepRunning(attempts: seq<Attempt>) returns (ran: nat)
      requires InMemory() == Tally([], false, Starting) && !restorable && restarts == 0 && !stopping
      modifies this`phase, this`restorable, this`everReady, this`crashes, this`restarts, this`stopping, dir`live,
          dir`record
      ensures ran <= |attempts|
      ensures InMemory() == After(attempts, ran)
      ensures ran > 0 ==> After(attempts, ran - 1).phase == Starting
      ensures ran < |attempts| ==> phase != Starting
      ensures restorable <==> phase == Failed && backup.Some? && !everReady
      ensures restarts == if ran == 0 || phase == Starting then ran else ran - 1
      ensures dir.Snapshot() == Served(old(dir.Snapshot()), version, attempts, ran)
    {
      ran := 0;
      while ran < |attempts| && phase == Starting
        invariant ran <= |attempts|
        invariant InMemory() == After(attempts, ran)
        invariant ran > 0 ==> After(attempts, ran - 1).phase == Starting
        invariant restorable <==> phase == Failed && backup.Some? && !everReady
        invariant restarts == if ran == 0 || phase == Starting then ran else ran - 1
        invariant dir.Snapshot() == Served(old(dir.Snapshot()), version, attempts, ran)
      {
        Turn(attempts[ran]);
        ran := ran + 1;
      }
    }

    /** One turn of the loop: the server runs, writes what it writes, may answer, and ends. */
    method Turn(attempt: Attempt)
      requires phase == Starting && !restorable
      modifies this`phase, this`restorable, this`everReady, this`crashes, this`restarts, this`stopping, dir`live,
          dir`record
      ensures InMemory() == Account(old(InMemory()), attempt)
      ensures restarts == if phase == Starting then old(restarts) + 1 else old(restarts)
      ensures restorable <==> phase == Failed && backup.Some? && !everReady
      ensures dir.Snapshot() == Serve(old(dir.Snapshot()), version, attempt)
    {
      dir.live := attempt.after;
      if attempt.ready {
        phase, restorable, everReady := Ready, false, true;
        if dir.record.version != Some(version) || dir.record.restoredFrom.Some? {
          dir.record := Record(Some(version), None);
        }
      }
      if attempt.end.AskedToStop? {
        stopping, phase := true, Stopped;
      } else {
        CountExit(attempt.end.at);
      }
    }

    /** The server is gone and nobody asked: count it, and give up when the restarts are used. */
    method CountExit(now: nat)
      requires !restorable
      modifies this`phase, this`restorable, this`crashes, this`restarts
      ensures crashes == Recent(old(crashes), now) + [now]
      ensures phase == if |crashes| > MAX_RESTARTS then Failed else Starting
      ensures restorable <==> phase == Failed && backup.Some? && !everReady
      ensures restarts == if phase == Failed then old(restarts) else old(restarts) + 1
    {
      crashes := Recent(crashes, now) + [now];
      if |crashes| > MAX_RESTARTS {
        phase := Failed;
        restorable := !everReady && backup.Some?;
      } else {
        restarts := restarts + 1;
        phase := Starting;
      }
    }

    /** Told to stop with no server running: the phase changes, the offer does not. */
    method Stop()
      requires Valid()
      modifies this`phase, this`stopping
      ensures Valid() && phase == Stopped && stopping
    {
      stopping := true;
      phase := Stopped;
    }

    /** Put the offered backup back. Refused, touching nothing, unless this launch failed before it was
        ever ready; done, unless the offered copy has lost its main file since. */
    method Restore(stamp: string) returns (r: Result<Restored>)
      requires Valid()
      modifies this, dir
      ensures Valid()
      ensures r == if !old(restorable) then (if old(backup).None? then NoBackup else NotRestorable)
                   else if Main !in HeldIn(old(dir.backups), old(backup).value) then NoBackup
                   else Ok(Restored(FailedName(stamp, version), VersionIn(old(backup).value)))
      ensures !r.Ok? ==> dir.Snapshot() == old(dir.Snapshot()) && phase == old(phase) && restorable == old(restorable)
      ensures r.Ok? ==> PutBack(old(dir.Snapshot()), dir.Snapshot(), old(backup).value, FailedName(stamp, version))
      ensures r.Ok? ==> phase == PutBackAgain && !restorable
      ensures backup == old(backup) && everReady == old(everReady)
    {
      if !restorable {
        return if backup.None? then NoBackup else NotRestorable;
      }
      r := dir.RestoreBackup(InBackups(backup.value), version, stamp);
      if r.Ok? {
        phase, restorable := PutBackAgain, false;
      }
    }
  }

  // --- what the tally means ---------------------------------------------------

  /** Forgetting and remembering one exit at a time keeps exactly the exits of the
      last window; the supervisor gives up at the first exit whose third
      predecessor is under a window old; and it knows whether the server answered. */
  lemma {:induction false} TallyMeans(attempts: seq<Attempt>, k: nat)
    requires 0 < k <= |attempts| && ClockMonotone(attempts)
    requires After(attempts, k - 1).phase == Starting
    ensures AllExited(attempts[..k - 1])
    ensures var t := After(attempts, k);
            && (t.phase == Stopped <==> attempts[k - 1].end.AskedToStop?)
            && (t.phase == Failed <==> GivesUpAt(attempts, k - 1))
            && t.everReady == AnyReady(attempts[..k])
            && (attempts[k - 1].end.Exited? ==>
                  AllExited(attempts[..k]) && t.crashes == Recent(Times(attempts[..k]), attempts[k - 1].end.at))
  {
    var before := After(attempts, k - 1);
    assert After(attempts, k) == Account(before, attempts[k - 1]);
    if k > 1 { TallyMeans(attempts, k - 1); }
    assert AllExited(attempts[..k - 1]);
    OneMoreReady(attempts, k - 1);
    if attempts[k - 1].end.Exited? { OneMoreExit(attempts, k - 1); }
  }

  lemma OneMoreReady(attempts: seq<Attempt>, k: nat)
    requires k < |attempts|
    ensures AnyReady(attempts[..k + 1]) == (AnyReady(attempts[..k]) || attempts[k].ready)
  {
    if AnyReady(attempts[..k]) {
      var i :| 0 <= i < k && attempts[..k][i].ready;
      assert attempts[..k + 1][i].ready;
    }
    if attempts[k].ready { assert attempts[..k + 1][k].ready; }
  }

  lemma OneMoreExit(attempts: seq<Attempt>, k: nat)
    requires k < |attempts| && AllExited(attempts[..k]) && attempts[k].end.Exited? && ClockMonotone(attempts)
    ensures AllExited(attempts[..k + 1])
    ensures var now := attempts[k].end.at;
            var kept := if k == 0 then [] else Recent(Times(attempts[..k]), attempts[k - 1].end.at);
            && Recent(kept, now) + [now] == Recent(Times(attempts[..k + 1]), now)
            && (|Recent(kept, now) + [now]| > MAX_RESTARTS <==> GivesUpAt(attempts, k))
  {
    var now := attempts[k].end.at;
    assert attempts[..k + 1] == attempts[..k] + [attempts[k]];
    var times := Times(attempts[..k + 1]);
    assert times == Times(attempts[..k]) + [now];
    assert times[..k] == Times(attempts[..k]);
    if k > 0 { RecentTwice(Times(attempts[..k]), attempts[k - 1].end.at, now); }
    BudgetByCount(times);
  }

  lemma {:induction false} ServedMeans(d: Disk, version: string, attempts: seq<Attempt>, k: nat)
    requires 0 < k <= |attempts|
    ensures Served(d, version, attempts, k)
         == Disk(attempts[k - 1].after, d.backups, if AnyReady(attempts[..k]) then Record(Some(version), None)
             else d.record)
  {
    OneMoreReady(attempts, k - 1);
    if k > 1 { ServedMeans(d, version, attempts, k - 1); }
  }

  /** A launch in which the server never answered, with or without a restore after
      it, is a step of the runs `BackupLaws.HeldUntilTheOfficeOpens` speaks of. */
  lemma UnansweredLaunch(d: Disk, m: Disk, r: Option<Backup>, e: Disk, version: string, stamp: string,
                         attempts: seq<Attempt>, k: nat, restoredAt: Option<string>)
    requires 0 < k <= |attempts| && !AnyReady(attempts[..k])
    requires UpgradeCopied(d, m, version, UpgradeName(stamp, FromVersion(d.record), version), r)
    requires var l := Launch(version, stamp, attempts[k - 1].after, restoredAt);
             AfterFailure(Served(m, version, attempts, k), e, r, l)
    ensures FailedLaunch(d, e, Launch(version, stamp, attempts[k - 1].after, restoredAt))
  {
    ServedMeans(m, version, attempts, k);
    assert Served(m, version, attempts, k) == m.(live := attempts[k - 1].after);
    assert CopyName(d, Launch(version, stamp, attempts[k - 1].after, restoredAt)) == UpgradeName(stamp,
        FromVersion(d.record), version);
  }
}
