/** What clients are promised, told by the steps of a run alone: each acknowledged write is
    traced from its append to every later state (db/db_impl.cc:2696-2772, 375-427). */
module Promises {
  import opened InternalKeys
  import opened Durability
  import R = DurabilityRuns

  ghost predicate Runs(mod: nat, dbs: seq<Db>, steps: seq<Step>) {
    Trace(mod, dbs, steps) && dbs[0] == Fresh()
  }

  ghost predicate NoPowerLoss(steps: seq<Step>, i: nat, n: nat) {
    n <= |steps| && forall k :: i <= k < n ==> !steps[k].PowerLoss?
  }

  ghost predicate NoCrash(steps: seq<Step>, i: nat, n: nat) {
    n <= |steps| && forall k :: i <= k < n ==> !R.Crash(steps[k])
  }

  // ----- acknowledged writes -----

  lemma ClientsStep(mod: nat, db: Db, step: Step, db': Db)
    requires Goes(mod, db, step, db')
    ensures db.clients.owed <= db'.clients.owed
    ensures UsesLog(mod) && !step.PowerLoss? ==> db.clients.acked <= db'.clients.acked
    ensures step.Ack? ==> Entries(db.m.inFlight.value.batch) <= db'.clients.acked
    ensures step.Ack? && db.m.inFlight.value.sync && UsesLog(mod) ==>
              EntriesOf(db.m.mem + [db.m.inFlight.value.batch]) <= db'.clients.owed
    ensures step.CommitEdit? ==> EntriesOf(db.m.imm.value) <= db'.clients.owed
  {
  }

  lemma {:induction false} OwedStays(mod: nat, dbs: seq<Db>, steps: seq<Step>, j: nat, n: nat)
    requires Trace(mod, dbs, steps) && j <= n < |dbs|
    ensures dbs[j].clients.owed <= dbs[n].clients.owed
  {
    if j < n {
      OwedStays(mod, dbs, steps, j, n - 1);
      assert Goes(mod, dbs[n - 1], steps[n - 1], dbs[n]);
      ClientsStep(mod, dbs[n - 1], steps[n - 1], dbs[n]);
    }
  }

  lemma {:induction false} AckedStays(mod: nat, dbs: seq<Db>, steps: seq<Step>, j: nat, n: nat)
    requires Trace(mod, dbs, steps) && j <= n < |dbs| && UsesLog(mod) && NoPowerLoss(steps, j, n)
    ensures dbs[j].clients.acked <= dbs[n].clients.acked
  {
    if j < n {
      AckedStays(mod, dbs, steps, j, n - 1);
      assert Goes(mod, dbs[n - 1], steps[n - 1], dbs[n]);
      ClientsStep(mod, dbs[n - 1], steps[n - 1], dbs[n]);
    }
  }

  /** With a log, an acknowledged write is in what a recovery would give in every later
      state up to a power loss; one that asked for a sync, and all before it in its
      memtable, in every later state, whatever is lost. */
  lemma AcknowledgedWriteSurvives(mod: nat, dbs: seq<Db>, steps: seq<Step>, j: nat, n: nat)
    requires Runs(mod, dbs, steps) && j < n < |dbs| && steps[j] == Ack && UsesLog(mod)
    ensures dbs[j].Up? && dbs[j].m.inFlight.Some?
    ensures var w := dbs[j].m.inFlight.value;
            && (NoPowerLoss(steps, j + 1, n) ==> Entries(w.batch) <= Recoverable(dbs[n].disk))
            && (w.sync ==> EntriesOf(dbs[j].m.mem + [w.batch]) <= Secured(dbs[n].disk))
  {
    assert Goes(mod, dbs[j], steps[j], dbs[j + 1]);
    ClientsStep(mod, dbs[j], steps[j], dbs[j + 1]);
    R.RunsAreSafe(mod, dbs, steps, n);
    if NoPowerLoss(steps, j + 1, n) { AckedStays(mod, dbs, steps, j + 1, n); }
    OwedStays(mod, dbs, steps, j + 1, n);
  }

  /** In every mode, what a committed flush has put into a table stays for good. */
  lemma FlushedSurvives(mod: nat, dbs: seq<Db>, steps: seq<Step>, j: nat, n: nat)
    requires Runs(mod, dbs, steps) && j < n < |dbs| && steps[j] == CommitEdit
    ensures dbs[j].Up? && dbs[j].m.imm.Some? && EntriesOf(dbs[j].m.imm.value) <= Secured(dbs[n].disk)
  {
    assert Goes(mod, dbs[j], steps[j], dbs[j + 1]);
    ClientsStep(mod, dbs[j], steps[j], dbs[j + 1]);
    R.RunsAreSafe(mod, dbs, steps, n);
    OwedStays(mod, dbs, steps, j + 1, n);
  }

  // ----- where entries come from -----

  /** The write that step i appends. */
  ghost function AppendedAt(dbs: seq<Db>, steps: seq<Step>, i: nat): InFlight
    requires i < |steps| && i < |dbs| && steps[i].Append? && dbs[i].Up?
  {
    InFlight(Batch(dbs[i].m.lastSequence + 1, steps[i].ops), steps[i].sync)
  }

  ghost predicate Appends(dbs: seq<Db>, steps: seq<Step>, i: nat) {
    i < |steps| && i < |dbs| && steps[i].Append? && dbs[i].Up?
  }

  lemma FlightStep(mod: nat, db: Db, step: Step, db': Db)
    requires Goes(mod, db, step, db')
    ensures step.Append? ==> db.Up? && db'.Up? && db'.m.inFlight == Some(InFlight(Batch(db.m.lastSequence + 1, step.ops), step.sync))
    ensures !step.Append? && db'.Up? && db'.m.inFlight.Some? ==>
              db.Up? && db'.m.inFlight == db.m.inFlight && !step.Ack? && !R.Crash(step)
  {
  }

  /** The write under way is the one appended last, since when nothing was acknowledged. */
  lemma {:induction false} FlightIsAppended(mod: nat, dbs: seq<Db>, steps: seq<Step>, n: nat) returns (i: nat)
    requires Runs(mod, dbs, steps) && n < |dbs| && dbs[n].Up? && dbs[n].m.inFlight.Some?
    ensures i < n && Appends(dbs, steps, i) && dbs[n].m.inFlight.value == AppendedAt(dbs, steps, i)
    ensures forall k :: i < k < n ==> !steps[k].Append? && !steps[k].Ack? && !R.Crash(steps[k])
  {
    assert Goes(mod, dbs[n - 1], steps[n - 1], dbs[n]);
    FlightStep(mod, dbs[n - 1], steps[n - 1], dbs[n]);
    if steps[n - 1].Append? { i := n - 1; } else { i := FlightIsAppended(mod, dbs, steps, n - 1); }
  }

  ghost predicate FromAppend(dbs: seq<Db>, steps: seq<Step>, n: nat, e: Entry) {
    exists i :: 0 <= i < n && Appends(dbs, steps, i) && e in Entries(AppendedAt(dbs, steps, i).batch)
  }

  lemma SubmittedStep(mod: nat, db: Db, step: Step, db': Db)
    requires Goes(mod, db, step, db')
    ensures step.Append? ==> db.Up? && db'.clients.submitted == db.clients.submitted + Entries(Batch(db.m.lastSequence + 1, step.ops))
    ensures !step.Append? ==> db'.clients.submitted == db.clients.submitted
  {
  }

  lemma {:induction false} SubmittedIsAppended(mod: nat, dbs: seq<Db>, steps: seq<Step>, n: nat, e: Entry)
    requires Runs(mod, dbs, steps) && n < |dbs|
    ensures e in dbs[n].clients.submitted <==> FromAppend(dbs, steps, n, e)
  {
    if n > 0 {
      SubmittedIsAppended(mod, dbs, steps, n - 1, e);
      assert Goes(mod, dbs[n - 1], steps[n - 1], dbs[n]);
      SubmittedStep(mod, dbs[n - 1], steps[n - 1], dbs[n]);
      OneAppendMore(dbs, steps, n, e);
    }
  }

  lemma OneAppendMore(dbs: seq<Db>, steps: seq<Step>, n: nat, e: Entry)
    requires 0 < n <= |steps| && n <= |dbs|
    ensures FromAppend(dbs, steps, n, e) <==>
              || FromAppend(dbs, steps, n - 1, e)
              || (Appends(dbs, steps, n - 1) && e in Entries(AppendedAt(dbs, steps, n - 1).batch))
  {
  }

  /** Whatever crashes and recoveries there were, only appended writes come back. */
  lemma NothingElseComesBack(mod: nat, dbs: seq<Db>, steps: seq<Step>, n: nat, e: Entry)
    requires Runs(mod, dbs, steps) && n < |dbs| && e in Recoverable(dbs[n].disk)
    ensures FromAppend(dbs, steps, n, e)
  {
    R.RunsAreSafe(mod, dbs, steps, n);
    SubmittedIsAppended(mod, dbs, steps, n, e);
  }

  // ----- numbers -----

  /** Operations acknowledged by the steps from j to n. */
  ghost function AckedOps(dbs: seq<Db>, steps: seq<Step>, j: nat, n: nat): nat
    requires j <= n <= |steps| && n <= |dbs|
    decreases n - j
  {
    if n == j then 0
    else
      AckedOps(dbs, steps, j, n - 1) +
      if steps[n - 1].Ack? && dbs[n - 1].Up? && dbs[n - 1].m.inFlight.Some? then |dbs[n - 1].m.inFlight.value.batch.ops| else 0
  }

  lemma SequenceStep(mod: nat, db: Db, step: Step, db': Db)
    requires Goes(mod, db, step, db') && db.Up? && !R.Crash(step)
    ensures db'.Up? && (step.Ack? ==> db.m.inFlight.Some?)
    ensures db'.m.lastSequence == db.m.lastSequence + if step.Ack? then |db.m.inFlight.value.batch.ops| else 0
  {
  }

  /** While the database is open, sequence numbers are handed out without a gap. */
  lemma {:induction false} SequenceIsExact(mod: nat, dbs: seq<Db>, steps: seq<Step>, j: nat, n: nat)
    requires Trace(mod, dbs, steps) && j <= n < |dbs| && dbs[j].Up? && NoCrash(steps, j, n)
    ensures dbs[n].Up? && dbs[n].m.lastSequence == dbs[j].m.lastSequence + AckedOps(dbs, steps, j, n)
  {
    if j < n {
      SequenceIsExact(mod, dbs, steps, j, n - 1);
      assert Goes(mod, dbs[n - 1], steps[n - 1], dbs[n]);
      SequenceStep(mod, dbs[n - 1], steps[n - 1], dbs[n]);
    }
  }

  /** File numbers given out by the steps from j to n. */
  function NumbersUsed(steps: seq<Step>, j: nat, n: nat): nat
    requires j <= n <= |steps|
    decreases n - j
  {
    if n == j then 0 else NumbersUsed(steps, j, n - 1) + if steps[n - 1].Switch? || steps[n - 1].WriteTable? then 1 else 0
  }

  lemma NumberStep(mod: nat, db: Db, step: Step, db': Db)
    requires Goes(mod, db, step, db') && db.Up? && !R.Crash(step)
    ensures db'.Up?
    ensures db'.m.nextFile == if step.Compact? then step.next else db.m.nextFile + if step.Switch? || step.WriteTable? then 1 else 0
  {
  }

  /** So are file numbers, between compactions. */
  lemma {:induction false} NumbersAreExact(mod: nat, dbs: seq<Db>, steps: seq<Step>, j: nat, n: nat)
    requires Trace(mod, dbs, steps) && j <= n < |dbs| && dbs[j].Up? && NoCrash(steps, j, n)
    requires forall k :: j <= k < n ==> !steps[k].Compact?
    ensures dbs[n].Up? && dbs[n].m.nextFile == dbs[j].m.nextFile + NumbersUsed(steps, j, n)
  {
    if j < n {
      NumbersAreExact(mod, dbs, steps, j, n - 1);
      assert Goes(mod, dbs[n - 1], steps[n - 1], dbs[n]);
      NumberStep(mod, dbs[n - 1], steps[n - 1], dbs[n]);
    }
  }

  /** The largest snapshot a compaction has worked with. */
  function Horizon(steps: seq<Step>, n: nat): nat
    requires n <= |steps|
  {
    if n == 0 then 0
    else
      Larger(Horizon(steps, n - 1), steps[n - 1])
  }

  function Larger(h: nat, step: Step): nat {
    if step.Compact? && step.smallest > h then step.smallest else h
  }

  lemma HorizonStep(mod: nat, db: Db, step: Step, db': Db)
    requires Goes(mod, db, step, db')
    ensures db'.disk.horizon == Larger(db.disk.horizon, step)
  {
  }

  lemma {:induction false} Largest(hs: seq<nat>, steps: seq<Step>, n: nat)
    requires |hs| == |steps| + 1 && hs[0] == 0 && n <= |steps|
    requires forall i :: 0 <= i < |steps| ==> hs[i + 1] == Larger(hs[i], steps[i])
    ensures hs[n] == Horizon(steps, n)
  {
    if n > 0 { Largest(hs, steps, n - 1); }
  }

  /** Reads are right from there on, by ReadsAreRight. */
  lemma HorizonIsExact(mod: nat, dbs: seq<Db>, steps: seq<Step>, n: nat)
    requires Runs(mod, dbs, steps) && n < |dbs|
    ensures dbs[n].disk.horizon == Horizon(steps, n)
  {
    var hs := seq(|dbs|, i requires 0 <= i < |dbs| => dbs[i].disk.horizon);
    forall i | 0 <= i < |steps| ensures hs[i + 1] == Larger(hs[i], steps[i]) {
      assert Goes(mod, dbs[i], steps[i], dbs[i + 1]);
      HorizonStep(mod, dbs[i], steps[i], dbs[i + 1]);
    }
    Largest(hs, steps, n);
  }

  // ----- files -----

  /** The log is gone and its number behind the manifest's. */
  ghost predicate Gone(d: Disk, log: nat) {
    log !in d.logs && log < d.logNumber
  }

  lemma GoneStays(mod: nat, db: Db, step: Step, db': Db, log: nat)
    requires DiskOk(db.disk) && (db.Up? ==> LogsMatch(mod, db.disk, db.m) && FlushMatches(db.disk, db.m))
    requires db.Opening? ==> OpeningOk(db.disk, db.edit)
    requires Goes(mod, db, step, db') && (Gone(db.disk, log) || step == DeleteLog(log))
    ensures Gone(db'.disk, log)
  {
  }

  lemma GoneNext(mod: nat, dbs: seq<Db>, steps: seq<Step>, i: nat, log: nat)
    requires Runs(mod, dbs, steps) && i < |steps|
    ensures Gone(dbs[i].disk, log) || steps[i] == DeleteLog(log) ==> Gone(dbs[i + 1].disk, log)
  {
    R.RunsAreSafe(mod, dbs, steps, i);
    assert Goes(mod, dbs[i], steps[i], dbs[i + 1]);
    if Gone(dbs[i].disk, log) || steps[i] == DeleteLog(log) { GoneStays(mod, dbs[i], steps[i], dbs[i + 1], log); }
  }

  lemma {:induction false} Lasts(gone: seq<bool>, j: nat, n: nat)
    requires j <= n < |gone| && gone[j] && forall i :: j <= i < |gone| - 1 && gone[i] ==> gone[i + 1]
    ensures gone[n]
  {
    if j < n { Lasts(gone, j, n - 1); }
  }

  /** The number of a deleted log is never used for a log again, crash or not. */
  lemma DeletedLogStaysDeleted(mod: nat, dbs: seq<Db>, steps: seq<Step>, j: nat, log: nat, n: nat)
    requires Runs(mod, dbs, steps) && j < n < |dbs| && steps[j] == DeleteLog(log)
    ensures Gone(dbs[n].disk, log)
  {
    var gone := seq(|dbs|, i requires 0 <= i < |dbs| => Gone(dbs[i].disk, log));
    GoneNext(mod, dbs, steps, j, log);
    forall i | j + 1 <= i < |gone| - 1 && gone[i] ensures gone[i + 1] {
      GoneNext(mod, dbs, steps, i, log);
    }
    Lasts(gone, j + 1, n);
  }

  /** A deleted table is gone, and was none of those in use. */
  lemma DeletedTableIsGone(mod: nat, dbs: seq<Db>, steps: seq<Step>, j: nat, n: nat)
    requires Runs(mod, dbs, steps) && j < |steps| && steps[j] == DeleteTable(n)
    ensures n !in dbs[j + 1].disk.tables && dbs[j + 1].disk.live == dbs[j].disk.live && n !in dbs[j].disk.live
    ensures Present(dbs[j + 1].disk) == Present(dbs[j].disk)
  {
    assert Goes(mod, dbs[j], steps[j], dbs[j + 1]);
    R.TablesAside(dbs[j].disk, dbs[j + 1].disk);
  }

  /** An opening that fails leaves the tables it wrote behind, unused, and takes nothing from
      what the next one can recover. */
  lemma FailedOpening(mod: nat, dbs: seq<Db>, steps: seq<Step>, j: nat)
    requires Runs(mod, dbs, steps) && j < |steps| && steps[j].ReplayFails?
    ensures var d, d' := dbs[j].disk, dbs[j + 1].disk;
            && d'.tables == d.tables + steps[j].tables && d'.live == d.live && d'.live !! steps[j].tables.Keys
            && d'.logs == d.logs && Recoverable(d') == Recoverable(d)
  {
    R.RunsAreSafe(mod, dbs, steps, j);
    assert Goes(mod, dbs[j], steps[j], dbs[j + 1]);
    R.TablesAside(dbs[j].disk, dbs[j + 1].disk);
  }

  lemma FailedStep(mod: nat, db: Db, step: Step, db': Db)
    requires Goes(mod, db, step, db') && !R.Crash(step) && (step.FlushFails? || (db.Up? && db.m.failed))
    ensures db'.Up? && db'.m.failed
    ensures !step.FlushFails? ==> !step.Append? && !step.Switch? && !step.WriteTable?
  {
  }

  lemma {:induction false} FailedStays(mod: nat, dbs: seq<Db>, steps: seq<Step>, j: nat, n: nat)
    requires Trace(mod, dbs, steps) && j < n < |dbs| && steps[j] == FlushFails && NoCrash(steps, j, n)
    ensures dbs[n].Up? && dbs[n].m.failed
  {
    if j + 1 < n { FailedStays(mod, dbs, steps, j, n - 1); }
    assert Goes(mod, dbs[n - 1], steps[n - 1], dbs[n]);
    FailedStep(mod, dbs[n - 1], steps[n - 1], dbs[n]);
  }

  /** After a flush has failed no write is accepted until the database is opened again. */
  lemma NoWriteAfterFailure(mod: nat, dbs: seq<Db>, steps: seq<Step>, j: nat, n: nat)
    requires Trace(mod, dbs, steps) && j < n < |steps| && steps[j] == FlushFails && NoCrash(steps, j, n + 1)
    ensures !steps[n].Append? && !steps[n].Switch?
  {
    FailedStays(mod, dbs, steps, j, n);
    assert Goes(mod, dbs[n], steps[n], dbs[n + 1]);
    FailedStep(mod, dbs[n], steps[n], dbs[n + 1]);
  }
}
