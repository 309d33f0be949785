/** Snapshots over whole runs: which of them are live is told by the steps alone, and a live
    one reads what had been written when it was taken (db/db_impl.cc:1525-1529, 2554-2562). */
module Snapshots {
  import opened InternalKeys
  import opened Versions
  import opened Engine
  import opened EngineRuns

  /** The steps that took the snapshots still live after n steps, oldest first. */
  function Live(ss: seq<Step>, n: nat): seq<nat>
    requires n <= |ss|
  {
    if n == 0 then [] else
      var hs := Live(ss, n - 1);
      match ss[n - 1]
      case TakeSnapshot => hs + [n - 1]
      case ReleaseSnapshot(r) => if r < |hs| then Without(hs, r) else hs
      case _ => hs
  }

  function Without<T>(xs: seq<T>, r: nat): (ys: seq<T>)
    requires r < |xs|
    ensures |ys| == |xs| - 1
    ensures forall i :: 0 <= i < |ys| ==> ys[i] == if i < r then xs[i] else xs[i + 1]
  {
    xs[..r] + xs[r + 1..]
  }

  /** Step j releases the snapshot that step i took. */
  ghost predicate Releases(ss: seq<Step>, j: nat, i: nat) {
    && j < |ss| && ss[j].ReleaseSnapshot?
    && ss[j].index < |Live(ss, j)| && Live(ss, j)[ss[j].index] == i
  }

  lemma {:induction false} LiveAscends(ss: seq<Step>, n: nat)
    requires n <= |ss|
    ensures Ascends(Live(ss, n), n)
  {
    if n > 0 { LiveAscends(ss, n - 1); }
  }

  ghost predicate Unreleased(ss: seq<Step>, n: nat, i: nat) {
    i < n <= |ss| && ss[i].TakeSnapshot? && forall j :: i < j < n ==> !Releases(ss, j, i)
  }

  /** A snapshot is live from the step that takes it to the one that releases it. */
  lemma {:induction false} LiveUntilReleased(ss: seq<Step>, n: nat, i: nat)
    requires n <= |ss|
    ensures i in Live(ss, n) <==> Unreleased(ss, n, i)
  {
    if n > 0 {
      LiveUntilReleased(ss, n - 1, i);
      LiveAscends(ss, n - 1);
      OneStep(ss, n - 1, i);
      NotYet(ss, n - 1, i);
    }
  }

  lemma NotYet(ss: seq<Step>, n: nat, i: nat)
    requires n < |ss|
    ensures Unreleased(ss, n + 1, i) <==> (Unreleased(ss, n, i) && !Releases(ss, n, i)) || (i == n && ss[i].TakeSnapshot?)
  {
  }

  ghost predicate Ascends(hs: seq<nat>, n: nat) {
    && (forall p :: 0 <= p < |hs| ==> hs[p] < n)
    && (forall p, q :: 0 <= p < q < |hs| ==> hs[p] < hs[q])
  }

  lemma OneStep(ss: seq<Step>, n: nat, i: nat)
    requires n < |ss| && Ascends(Live(ss, n), n)
    ensures i in Live(ss, n + 1) <==>
            (i in Live(ss, n) && !Releases(ss, n, i)) || (i == n && ss[i].TakeSnapshot?)
  {
    var hs := Live(ss, n);
    if ss[n].ReleaseSnapshot? && ss[n].index < |hs| { WithoutMembers(hs, n, ss[n].index, i); }
  }

  lemma WithoutMembers(hs: seq<nat>, n: nat, r: nat, i: nat)
    requires r < |hs| && Ascends(hs, n)
    ensures i in Without(hs, r) <==> i in hs && i != hs[r]
  {
    if i in hs && i != hs[r] {
      var p :| 0 <= p < |hs| && hs[p] == i;
      assert Without(hs, r)[if p < r then p else p - 1] == i;
    }
  }

  /** The list of snapshots is what the steps say. */
  ghost predicate Recorded(ds: seq<Db>, hs: seq<nat>, snapshots: seq<nat>) {
    && |snapshots| == |hs|
    && forall p :: 0 <= p < |hs| ==> hs[p] < |ds| && snapshots[p] == ds[hs[p]].lastSequence
  }

  lemma SnapshotStep(ds: seq<Db>, d: Db, s: Step, d': Db, hs: seq<nat>, at: nat)
    requires Enabled(d, s) && d' == Apply(d, s) && Recorded(ds, hs, d.snapshots) && at < |ds| && ds[at] == d
    ensures match s
            case TakeSnapshot => Recorded(ds, hs + [at], d'.snapshots)
            case ReleaseSnapshot(r) => r < |hs| && Recorded(ds, Without(hs, r), d'.snapshots)
            case _ => Recorded(ds, hs, d'.snapshots)
  {
  }

  /** The snapshot list holds, for each live snapshot, the last sequence number of the
      moment it was taken. */
  lemma {:induction false} SnapshotsAreLive(ds: seq<Db>, ss: seq<Step>, n: nat)
    requires Path(ds, ss) && ds[0].snapshots == [] && n <= |ss|
    ensures Recorded(ds, Live(ss, n), ds[n].snapshots)
  {
    if n > 0 {
      SnapshotsAreLive(ds, ss, n - 1);
      assert Taken(ds[n - 1], ss[n - 1], ds[n]);
      SnapshotStep(ds, ds[n - 1], ss[n - 1], ds[n], Live(ss, n - 1), n - 1);
    }
  }

  /** The threshold a compaction gets is the oldest live snapshot, or the present. */
  lemma OldestIsLive(ds: seq<Db>, ss: seq<Step>, n: nat)
    requires Path(ds, ss) && ds[0].snapshots == [] && n <= |ss|
    ensures Live(ss, n) == [] ==> Oldest(ds[n]) == ds[n].lastSequence
    ensures Live(ss, n) != [] ==> Live(ss, n)[0] < n && Oldest(ds[n]) == ds[Live(ss, n)[0]].lastSequence
    ensures forall i :: i in Live(ss, n) ==> Live(ss, n)[0] <= i
  {
    SnapshotsAreLive(ds, ss, n);
    LiveAscends(ss, n);
  }

  /** Whatever was flushed, compacted, taken or released since, a live snapshot reads what
      the database held, and what it had been given, when the snapshot was taken. */
  lemma LiveSnapshotReads(ds: seq<Db>, ss: seq<Step>, i: nat, j: nat, k: UserKey)
    requires Path(ds, ss) && Inv(ds[0]) && ds[0].snapshots == [] && j <= |ss| && i in Live(ss, j)
    ensures i < j && Oldest(ds[j]) <= ds[i].lastSequence
    ensures var s := ds[i].lastSequence;
            && Visible(Look(Held(ds[j]), k, s)) == Visible(Look(Held(ds[i]), k, s))
            && Visible(Look(Held(ds[j]), k, s)) == Visible(Look(History(ds[0]) + Written(ss, i), k, s))
  {
    LiveUntilReleased(ss, j, i);
    SnapshotsAreLive(ds, ss, j);
    PathsAreRight(ds, ss, i);
    PathsAreRight(ds, ss, j);
    LiveIsCovered(ds, Live(ss, j), ds[j], i);
    HistoryIsStable(ds, ss, i, j, k, ds[i].lastSequence);
    OldestIsPast(ds[i]);
    HeldIsHistory(ds[i], k, ds[i].lastSequence);
    HeldIsHistory(ds[j], k, ds[i].lastSequence);
  }

  lemma OldestIsPast(d: Db)
    requires SnapshotsOk(d)
    ensures Oldest(d) <= d.lastSequence
  {
  }

  lemma LiveIsCovered(ds: seq<Db>, hs: seq<nat>, d: Db, i: nat)
    requires Recorded(ds, hs, d.snapshots) && SnapshotsOk(d) && i in hs
    ensures i < |ds| && Oldest(d) <= ds[i].lastSequence
  {
    var p :| 0 <= p < |hs| && hs[p] == i;
    assert d.snapshots[p] == ds[i].lastSequence;
  }

  // ----- counters and the background job -----

  /** Operations written by the first n steps. */
  function Operations(ss: seq<Step>, n: nat): nat
    requires n <= |ss|
  {
    if n == 0 then 0 else Operations(ss, n - 1) + if ss[n - 1].Write? then |ss[n - 1].batch| else 0
  }

  /** Tables opened by the first n steps. */
  function Opened(ss: seq<Step>, n: nat): nat
    requires n <= |ss|
  {
    if n == 0 then 0 else Opened(ss, n - 1) + if ss[n - 1].Flush? || ss[n - 1].OpenOutput? then 1 else 0
  }

  lemma CountersStep(d: Db, s: Step, d': Db)
    requires Enabled(d, s) && d' == Apply(d, s)
    ensures d'.lastSequence == d.lastSequence + if s.Write? then |s.batch| else 0
    ensures d'.nextFile == d.nextFile + if s.Flush? || s.OpenOutput? then 1 else 0
  {
  }

  /** Sequence and file numbers are handed out without a gap. */
  lemma {:induction false} CountersAreExact(ds: seq<Db>, ss: seq<Step>, n: nat)
    requires Path(ds, ss) && n <= |ss|
    ensures ds[n].lastSequence == ds[0].lastSequence + Operations(ss, n)
    ensures ds[n].nextFile == ds[0].nextFile + Opened(ss, n)
  {
    if n > 0 {
      CountersAreExact(ds, ss, n - 1);
      assert Taken(ds[n - 1], ss[n - 1], ds[n]);
      CountersStep(ds[n - 1], ss[n - 1], ds[n]);
    }
  }

  /** The step that began the compaction running after n steps, and -1 if none runs. */
  function Begun(ss: seq<Step>, n: nat): (b: int)
    requires n <= |ss|
    ensures -1 <= b < n && (b >= 0 ==> ss[b].BeginCompaction?)
    ensures b >= 0 ==> forall i :: b < i < n ==> !ss[i].BeginCompaction? && !ss[i].FinishCompaction?
  {
    if n == 0 then -1 else
    if ss[n - 1].BeginCompaction? then n - 1 else
    if ss[n - 1].FinishCompaction? then -1 else Begun(ss, n - 1)
  }

  /** The job was set up by step s out of state d. */
  ghost predicate SetUp(d: Db, s: Step, j: Job) {
    && s.BeginCompaction? && j.Busy?
    && j.plan.level == s.level && j.plan.in0 == s.in0 && j.plan.lo == s.lo && j.plan.hi == s.hi
    && j.base == d.version && j.input == s.input && j.smallestSnapshot == Oldest(d)
  }

  lemma JobStep(d: Db, s: Step, d': Db)
    requires Enabled(d, s) && d' == Apply(d, s)
    ensures s.BeginCompaction? ==> SetUp(d, s, d'.job) && d'.job.numbers == {}
    ensures s.FinishCompaction? ==> d'.job.Idle?
    ensures s.OpenOutput? ==> d.job.Busy? && d'.job == d.job.(numbers := d.job.numbers + {d.nextFile})
    ensures !s.BeginCompaction? && !s.FinishCompaction? && !s.OpenOutput? ==> d'.job == d.job
  {
  }

  /** A compaction works with the version, the inputs and the oldest snapshot of the moment
      it began, whatever happens beside it. */
  lemma {:induction false} JobIsFromItsBeginning(ds: seq<Db>, ss: seq<Step>, n: nat)
    requires Path(ds, ss) && ds[0].job.Idle? && n <= |ss|
    ensures Begun(ss, n) < 0 ==> ds[n].job.Idle?
    ensures Begun(ss, n) >= 0 ==> SetUp(ds[Begun(ss, n)], ss[Begun(ss, n)], ds[n].job)
  {
    if n > 0 {
      JobIsFromItsBeginning(ds, ss, n - 1);
      assert Taken(ds[n - 1], ss[n - 1], ds[n]);
      JobStep(ds[n - 1], ss[n - 1], ds[n]);
    }
  }
}
