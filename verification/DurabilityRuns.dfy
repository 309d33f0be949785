/** Safety of crash recovery over whole runs. */
module DurabilityRuns {
  import opened InternalKeys
  import opened DropView
  import opened Durability

  lemma EntriesConcat(a: seq<Batch>, b: seq<Batch>)
    ensures EntriesOf(a + b) == EntriesOf(a) + EntriesOf(b)
  {
  }

  lemma EntriesOne(b: Batch)
    ensures EntriesOf([b]) == Entries(b)
  {
    assert b in [b];
  }

  lemma EntriesPrefix(bs: seq<Batch>, k: nat)
    requires k <= |bs|
    ensures EntriesOf(bs[..k]) <= EntriesOf(bs)
  {
  }

  lemma EntriesNone()
    ensures EntriesOf([]) == {}
  {
  }

  // ----- how the disk changes -----

  lemma LogsWithin(d: Disk, d': Disk, extra: set<Entry>)
    requires forall n, x :: InLog(d, n, x) ==> x in extra || InLog(d', n, x)
    ensures LogEntries(d) <= LogEntries(d') + extra
  {
  }

  lemma SyncedWithin(d: Disk, d': Disk, extra: set<Entry>)
    requires LogsOk(d.logs) && forall n, x :: InSynced(d, n, x) ==> x in extra || InSynced(d', n, x)
    ensures SyncedEntries(d) <= SyncedEntries(d') + extra
  {
    forall x | x in SyncedEntries(d) ensures x in SyncedEntries(d') + extra {
      var n :| InSynced(d, n, x);
      if x !in extra {
        assert InSynced(d', n, x);
        EntriesPrefix(d'.logs[n].batches, d'.logs[n].synced);
      }
    }
  }

  lemma SyncedHas(d: Disk, n: nat)
    requires n in d.logs && n >= d.logNumber && d.logs[n].synced <= |d.logs[n].batches|
    ensures EntriesOf(d.logs[n].batches[..d.logs[n].synced]) <= SyncedEntries(d)
  {
    EntriesPrefix(d.logs[n].batches, d.logs[n].synced);
    forall x | x in EntriesOf(d.logs[n].batches[..d.logs[n].synced]) ensures x in SyncedEntries(d) {
      assert InSynced(d, n, x);
    }
  }

  lemma LogHas(d: Disk, n: nat)
    requires n in d.logs && n >= d.logNumber
    ensures EntriesOf(d.logs[n].batches) <= LogEntries(d)
  {
    forall x | x in EntriesOf(d.logs[n].batches) ensures x in LogEntries(d) {
      assert InLog(d, n, x);
    }
  }

  /** A longer current log adds exactly the new batch. */
  lemma LogGrows(d: Disk, n: nat, b: Batch)
    requires n in d.logs && n >= d.logNumber && LogsOk(d.logs)
    ensures var d' := d.(logs := d.logs[n := AppendTo(d.logs[n], b)]);
            && LogsOk(d'.logs) && LiveEntries(d') == LiveEntries(d)
            && LogEntries(d') == LogEntries(d) + Entries(b)
            && SyncedEntries(d) <= SyncedEntries(d')
  {
    var d' := d.(logs := d.logs[n := AppendTo(d.logs[n], b)]);
    EntriesConcat(d.logs[n].batches, [b]);
    EntriesOne(b);
    assert d'.logs[n].batches[..d'.logs[n].synced] == d.logs[n].batches[..d.logs[n].synced];
    LogsWithin(d, d', {});
    LogsWithin(d', d, Entries(b));
    LogHas(d', n);
    SyncedWithin(d, d', {});
  }

  /** Syncing a log secures what it has. */
  lemma LogSynced(d: Disk, n: nat)
    requires n in d.logs && LogsOk(d.logs)
    ensures var d' := d.(logs := d.logs[n := LogFile(d.logs[n].batches, |d.logs[n].batches|)]);
            && LogsOk(d'.logs) && LiveEntries(d') == LiveEntries(d)
            && LogEntries(d') == LogEntries(d) && SyncedEntries(d) <= SyncedEntries(d')
  {
    var d' := d.(logs := d.logs[n := LogFile(d.logs[n].batches, |d.logs[n].batches|)]);
    EntriesPrefix(d.logs[n].batches, d.logs[n].synced);
    assert d'.logs[n].batches[..d'.logs[n].synced] == d.logs[n].batches;
    LogsWithin(d, d', {});
    LogsWithin(d', d, {});
    SyncedWithin(d, d', {});
  }

  /** A fresh empty log adds nothing. */
  lemma LogStarts(d: Disk, n: nat)
    requires n !in d.logs && LogsOk(d.logs)
    ensures var d' := d.(logs := d.logs[n := LogFile([], 0)]);
            LogsOk(d'.logs) && LiveEntries(d') == LiveEntries(d) && LogEntries(d') == LogEntries(d) && SyncedEntries(d') == SyncedEntries(d)
  {
    EntriesNone();
    var d' := d.(logs := d.logs[n := LogFile([], 0)]);
    LogsWithin(d, d', {});
    LogsWithin(d', d, {});
    SyncedWithin(d, d', {});
    SyncedWithin(d', d, {});
  }

  /** Tables no version refers to are irrelevant. */
  lemma TablesAside(d: Disk, d': Disk)
    requires d' == d.(tables := d'.tables)
    requires forall n :: n in d.live ==> (n in d.tables <==> n in d'.tables) && (n in d.tables ==> d'.tables[n] == d.tables[n])
    ensures Present(d') == Present(d) && LiveEntries(d') == LiveEntries(d) && LogEntries(d') == LogEntries(d)
    ensures LogsOk(d.logs) ==> SyncedEntries(d') == SyncedEntries(d)
  {
    LogsWithin(d, d', {});
    LogsWithin(d', d, {});
    if LogsOk(d.logs) {
      SyncedWithin(d, d', {});
      SyncedWithin(d', d, {});
    }
  }

  /** A power loss leaves what was synced, and adds nothing. */
  lemma CutKeeps(d: Disk, kept: map<nat, nat>)
    requires KeepsSynced(d.logs, kept) && LogsOk(d.logs)
    ensures var d' := d.(logs := Cut(d.logs, kept));
            && LogsOk(d'.logs) && LiveEntries(d') == LiveEntries(d)
            && LogEntries(d') <= LogEntries(d) && SyncedEntries(d) <= SyncedEntries(d')
  {
    var d' := d.(logs := Cut(d.logs, kept));
    forall n | n in d.logs
      ensures EntriesOf(d'.logs[n].batches) <= EntriesOf(d.logs[n].batches)
      ensures EntriesOf(d.logs[n].batches[..d.logs[n].synced]) <= EntriesOf(d'.logs[n].batches[..d'.logs[n].synced])
    {
      EntriesPrefix(d.logs[n].batches, kept[n]);
      assert d'.logs[n].batches[..d'.logs[n].synced] == d'.logs[n].batches;
      assert d.logs[n].batches[..d.logs[n].synced] == d'.logs[n].batches[..d.logs[n].synced];
      EntriesPrefix(d'.logs[n].batches, d.logs[n].synced);
    }
    LogsWithin(d', d, {});
    SyncedWithin(d, d', {});
  }

  // ----- every step keeps the invariant -----

  lemma AppendKeeps(mod: nat, db: Db, ops: seq<Op>, sync: bool)
    requires Inv(mod, db) && Enabled(mod, db, Append(ops, sync))
    ensures Inv(mod, Apply(mod, db, Append(ops, sync)))
  {
    var b := Batch(db.m.lastSequence + 1, ops);
    AppendPromise(mod, db, b, sync, Apply(mod, db, Append(ops, sync)));
    AppendMatches(mod, db, b, sync, Apply(mod, db, Append(ops, sync)));
  }

  lemma AppendPromise(mod: nat, db: Db, b: Batch, sync: bool, db': Db)
    requires Inv(mod, db) && Enabled(mod, db, Append(b.ops, sync)) && db' == Apply(mod, db, Append(b.ops, sync))
    requires b.first == db.m.lastSequence + 1
    ensures LiveEntries(db'.disk) == LiveEntries(db.disk)
    ensures DiskOk(db'.disk) && Kept(mod, db'.disk, db'.clients)
  {
    if UsesLog(mod) { LogGrows(db.disk, db.m.logFile, b); }
  }

  lemma AppendMatches(mod: nat, db: Db, b: Batch, sync: bool, db': Db)
    requires Inv(mod, db) && Enabled(mod, db, Append(b.ops, sync)) && db' == Apply(mod, db, Append(b.ops, sync))
    requires b.first == db.m.lastSequence + 1
    ensures LogsMatch(mod, db'.disk, db'.m) && MemoryKnown(db'.m, db'.clients)
  {
    EntriesConcat(db.m.mem, [b]);
    EntriesOne(b);
  }

  lemma SyncLogKeeps(mod: nat, db: Db)
    requires Inv(mod, db) && Enabled(mod, db, SyncLog)
    ensures Inv(mod, Apply(mod, db, SyncLog))
  {
    var d, n := db.disk, db.m.logFile;
    var d' := d.(logs := d.logs[n := LogFile(d.logs[n].batches, |d.logs[n].batches|)]);
    LogSynced(d, n);
    SameMemory(mod, d, db.m, d');
    assert Apply(mod, db, SyncLog) == Up(d', db.clients, db.m);
  }

  /** What memory relies on is still on the disk. */
  lemma SameMemory(mod: nat, d: Disk, m: Memory, d': Disk)
    requires LogsMatch(mod, d, m) && FlushMatches(d, m) && SequencesOk(d, m) && Layers(d, m)
    requires LiveEntries(d') == LiveEntries(d) && d'.live == d.live
    requires d'.logNumber == d.logNumber && d.nextFile <= d'.nextFile <= m.nextFile && d'.lastSequence == d.lastSequence
    requires forall n :: n in d'.logs ==> n in d.logs
    requires forall n :: n in d.logs && (n == m.logFile || n == m.logNumber) ==> n in d'.logs && d'.logs[n].batches == d.logs[n].batches
    requires m.flush.Editing? ==> d'.nextFile == d.nextFile
    requires !m.flush.Idle? ==> m.flush.number in d'.tables && m.flush.number in d.tables && d'.tables[m.flush.number] == d.tables[m.flush.number]
    ensures LogsMatch(mod, d', m) && FlushMatches(d', m) && SequencesOk(d', m) && Layers(d', m)
  {
  }

  lemma BatchIsNewer(S: set<Entry>, b: Batch, last: nat)
    requires b.first == last + 1 && forall x :: x in S ==> x.ik.sn <= last
    ensures Older(S, Entries(b)) && forall x :: x in Entries(b) ==> x.ik.sn <= last + |b.ops|
  {
  }

  /** The applied batch is the newest thing in the database. */
  lemma AckLayers(d: Disk, m: Memory, m': Memory)
    requires DiskOk(d) && Layers(d, m) && SequencesOk(d, m) && m.inFlight.Some?
    requires m' == m.(mem := m.mem + [m.inFlight.value.batch], inFlight := None,
                      lastSequence := m.lastSequence + |m.inFlight.value.batch.ops|)
    ensures Layers(d, m') && SequencesOk(d, m')
  {
    var b := m.inFlight.value.batch;
    EntriesConcat(m.mem, [b]);
    EntriesOne(b);
    BatchIsNewer(LiveEntries(d), b, m.lastSequence);
    if m.imm.Some? { BatchIsNewer(EntriesOf(m.imm.value), b, m.lastSequence); }
    assert forall x :: x in m.mem ==> x.first + |x.ops| <= b.first;
  }

  lemma AckMatches(mod: nat, db: Db, db': Db)
    requires Inv(mod, db) && Enabled(mod, db, Ack) && db' == Apply(mod, db, Ack)
    ensures LogsMatch(mod, db'.disk, db'.m) && FlushMatches(db'.disk, db'.m) && MemoryKnown(db'.m, db'.clients)
  {
    EntriesConcat(db.m.mem, [db.m.inFlight.value.batch]);
    EntriesOne(db.m.inFlight.value.batch);
  }

  lemma AckKeeps(mod: nat, db: Db)
    requires Inv(mod, db) && Enabled(mod, db, Ack)
    ensures Inv(mod, Apply(mod, db, Ack))
  {
    AckLayers(db.disk, db.m, Apply(mod, db, Ack).m);
    AckMatches(mod, db, Apply(mod, db, Ack));
    AckPromise(mod, db);
  }

  lemma AckPromise(mod: nat, db: Db)
    requires Inv(mod, db) && Enabled(mod, db, Ack)
    ensures Kept(mod, db.disk, Apply(mod, db, Ack).clients)
  {
    var w := db.m.inFlight.value;
    var log := db.disk.logs[db.m.logFile];
    EntriesConcat(db.m.mem, [w.batch]);
    EntriesOne(w.batch);
    if UsesLog(mod) {
      assert log.batches == db.m.mem + [w.batch];
      LogHas(db.disk, db.m.logFile);
      if w.sync {
        assert log.batches[..log.synced] == log.batches;
        SyncedHas(db.disk, db.m.logFile);
      }
    }
  }

  lemma SwitchKeeps(mod: nat, db: Db)
    requires Inv(mod, db) && Enabled(mod, db, Switch)
    ensures Inv(mod, Apply(mod, db, Switch))
  {
    LogStarts(db.disk, db.m.nextFile);
    EntriesNone();
  }

  lemma WriteTableKeeps(mod: nat, db: Db)
    requires Inv(mod, db) && Enabled(mod, db, WriteTable)
    ensures Inv(mod, Apply(mod, db, WriteTable))
  {
    TablesAside(db.disk, Apply(mod, db, WriteTable).disk);
  }

  lemma PrepareKeeps(mod: nat, db: Db)
    requires Inv(mod, db) && Enabled(mod, db, PrepareEdit)
    ensures Inv(mod, Apply(mod, db, PrepareEdit))
  {
  }

  /** The commit swaps the prior log for the table with the same contents. */
  lemma CommitEntries(d: Disk, e: Edit, imm: seq<Batch>, prior: nat, n: nat)
    requires LogsOk(d.logs)
    requires d.logNumber == prior < e.logNumber && e.logNumber in d.logs && prior in d.logs && e.added == {n}
    requires n in d.tables && d.tables[n] == EntriesOf(imm)
    requires forall k :: k in d.logs ==> k < prior || k == prior || k == e.logNumber
    ensures Present(Commit(d, e)) == Present(d) + EntriesOf(imm)
    ensures LiveEntries(Commit(d, e)) == LiveEntries(d) + EntriesOf(imm)
    ensures LogEntries(d) == LogEntries(Commit(d, e)) + EntriesOf(d.logs[prior].batches)
    ensures SyncedEntries(d) <= SyncedEntries(Commit(d, e)) + EntriesOf(d.logs[prior].batches)
  {
    EntriesPrefix(d.logs[prior].batches, d.logs[prior].synced);
    LogsWithin(d, Commit(d, e), EntriesOf(d.logs[prior].batches));
    LogsWithin(Commit(d, e), d, {});
    LogHas(d, prior);
    SyncedWithin(d, Commit(d, e), EntriesOf(d.logs[prior].batches));
  }

  lemma CommitPromise(mod: nat, db: Db, d': Disk)
    requires Inv(mod, db) && Enabled(mod, db, CommitEdit) && d' == Commit(db.disk, db.m.flush.edit)
    ensures DiskOk(d') && Kept(mod, d', db.clients.(owed := db.clients.owed + EntriesOf(db.m.imm.value)))
  {
    CommitEntries(db.disk, db.m.flush.edit, db.m.imm.value, db.m.logNumber, db.m.flush.number);
    EntriesNone();
  }

  lemma CommitLayers(mod: nat, db: Db, d': Disk, m': Memory)
    requires Inv(mod, db) && Enabled(mod, db, CommitEdit) && d' == Commit(db.disk, db.m.flush.edit)
    requires m' == db.m.(flush := Durable(db.m.flush.number, db.m.flush.edit))
    ensures SequencesOk(d', m') && Layers(d', m')
  {
    CommitEntries(db.disk, db.m.flush.edit, db.m.imm.value, db.m.logNumber, db.m.flush.number);
  }

  lemma CommitMatches(mod: nat, db: Db, d': Disk, m': Memory)
    requires Inv(mod, db) && Enabled(mod, db, CommitEdit) && d' == Commit(db.disk, db.m.flush.edit)
    requires m' == db.m.(flush := Durable(db.m.flush.number, db.m.flush.edit))
    ensures LogsMatch(mod, d', m') && FlushMatches(d', m') && MemoryKnown(m', db.clients)
  {
  }

  lemma CommitKeeps(mod: nat, db: Db)
    requires Inv(mod, db) && Enabled(mod, db, CommitEdit)
    ensures Inv(mod, Apply(mod, db, CommitEdit))
  {
    var db' := Apply(mod, db, CommitEdit);
    CommitPromise(mod, db, db'.disk);
    CommitLayers(mod, db, db'.disk, db'.m);
    CommitMatches(mod, db, db'.disk, db'.m);
  }

  lemma InstallKeeps(mod: nat, db: Db)
    requires Inv(mod, db) && Enabled(mod, db, Install)
    ensures Inv(mod, Apply(mod, db, Install))
  {
  }

  /** Compacting changes where entries are, not what was given. */
  lemma CompactEntries(db: Db, step: Step, d': Disk)
    requires db.Up? && step.Compact? && Enabled(0, db, step) && d' == Apply(0, db, step).disk && LogsOk(db.disk.logs)
    ensures LiveEntries(d') == LiveEntries(db.disk) && LogEntries(d') == LogEntries(db.disk)
    ensures SyncedEntries(d') == SyncedEntries(db.disk)
  {
    LogsWithin(db.disk, d', {});
    LogsWithin(d', db.disk, {});
    SyncedWithin(db.disk, d', {});
    SyncedWithin(d', db.disk, {});
  }

  lemma CompactKeeps(mod: nat, db: Db, step: Step)
    requires Inv(mod, db) && Enabled(mod, db, step) && step.Compact?
    ensures Inv(mod, Apply(mod, db, step))
  {
    CompactEntries(db, step, Apply(mod, db, step).disk);
  }

  lemma DeleteKeeps(mod: nat, db: Db, step: Step)
    requires Inv(mod, db) && Enabled(mod, db, step) && (step.DeleteLog? || step.DeleteTable?)
    ensures Inv(mod, Apply(mod, db, step))
  {
    if step.DeleteLog? { DeleteLogKeeps(mod, db, step.number); } else { DeleteTableKeeps(mod, db, step.number); }
  }

  lemma DeleteLogKeeps(mod: nat, db: Db, n: nat)
    requires Inv(mod, db) && Enabled(mod, db, DeleteLog(n))
    ensures Inv(mod, Apply(mod, db, DeleteLog(n)))
  {
    LogDeleted(db.disk, n);
    SameMemory(mod, db.disk, db.m, db.disk.(logs := db.disk.logs - {n}));
  }

  lemma DeleteTableKeeps(mod: nat, db: Db, n: nat)
    requires Inv(mod, db) && Enabled(mod, db, DeleteTable(n))
    ensures Inv(mod, Apply(mod, db, DeleteTable(n)))
  {
    TablesAside(db.disk, db.disk.(tables := db.disk.tables - {n}));
    SameMemory(mod, db.disk, db.m, db.disk.(tables := db.disk.tables - {n}));
  }

  /** A log below the manifest's number is not missed. */
  lemma LogDeleted(d: Disk, n: nat)
    requires LogsOk(d.logs) && n < d.logNumber
    ensures var d' := d.(logs := d.logs - {n});
            && LogsOk(d'.logs) && LiveEntries(d') == LiveEntries(d)
            && LogEntries(d') == LogEntries(d) && SyncedEntries(d) <= SyncedEntries(d')
  {
    var d' := d.(logs := d.logs - {n});
    LogsWithin(d, d', {});
    LogsWithin(d', d, {});
    SyncedWithin(d, d', {});
  }

  lemma CrashKeeps(mod: nat, db: Db, step: Step)
    requires Inv(mod, db) && Enabled(mod, db, step) && (step.Kill? || step.PowerLoss?)
    ensures Inv(mod, Apply(mod, db, step))
  {
    SecuredRecoverable(db.disk);
    if db.Up? {
      LogsAreNewer(mod, db);
      LogsInOrder(mod, db);
    }
    if step.PowerLoss? {
      CutKeeps(db.disk, step.kept);
      CutInOrder(db.disk, step.kept);
      SecuredRecoverable(Apply(mod, db, step).disk);
    }
  }

  /** What the needed logs hold is newer than what the tables were given. */
  lemma LogsAreNewer(mod: nat, db: Db)
    requires Inv(mod, db) && db.Up?
    ensures Older(LiveEntries(db.disk), LogEntries(db.disk))
  {
    var d, m := db.disk, db.m;
    PendingLayers(d, m);
    EntriesNone();
    forall n, x | InLog(d, n, x) ensures x in EntriesOf(Before(m)) + EntriesOf(Pending(m)) {
      assert n == m.logNumber || n == m.logFile;
    }
  }

  lemma LogsInOrder(mod: nat, db: Db)
    requires Inv(mod, db) && db.Up?
    ensures LogsOrdered(db.disk)
  {
    PendingLayers(db.disk, db.m);
    EntriesNone();
  }

  lemma CutInOrder(d: Disk, kept: map<nat, nat>)
    requires KeepsSynced(d.logs, kept) && LogsOrdered(d)
    ensures LogsOrdered(d.(logs := Cut(d.logs, kept)))
  {
    var d' := d.(logs := Cut(d.logs, kept));
    forall n | n in d.logs ensures EntriesOf(d'.logs[n].batches) <= EntriesOf(d.logs[n].batches) {
      EntriesPrefix(d.logs[n].batches, kept[n]);
    }
  }

  lemma SecuredRecoverable(d: Disk)
    requires LogsOk(d.logs)
    ensures Secured(d) <= Recoverable(d)
  {
    forall n | n in d.logs ensures EntriesOf(d.logs[n].batches[..d.logs[n].synced]) <= EntriesOf(d.logs[n].batches) {
      EntriesPrefix(d.logs[n].batches, d.logs[n].synced);
    }
  }

  lemma ReplayKeeps(mod: nat, db: Db, edit: Edit, tables: map<nat, set<Entry>>)
    requires Inv(mod, db) && Enabled(mod, db, Replay(edit, tables))
    ensures Inv(mod, Apply(mod, db, Replay(edit, tables)))
  {
    var d1 := db.disk.(tables := db.disk.tables + tables);
    TablesAside(db.disk, d1);
    LogStarts(d1, edit.logNumber);
  }

  lemma ReplayFailsKeeps(mod: nat, db: Db, tables: map<nat, set<Entry>>)
    requires Inv(mod, db) && Enabled(mod, db, ReplayFails(tables))
    ensures Inv(mod, Apply(mod, db, ReplayFails(tables)))
  {
    TablesAside(db.disk, Apply(mod, db, ReplayFails(tables)).disk);
  }

  /** Committing the recovery edit moves the replayed entries into tables. */
  lemma OpenEntries(d: Disk, e: Edit)
    requires OpeningOk(d, e)
    ensures Present(Commit(d, e)) == Present(d) + LogEntries(d)
    ensures LiveEntries(Commit(d, e)) == Recoverable(d)
    ensures LogEntries(Commit(d, e)) == {} && SyncedEntries(Commit(d, e)) == {}
  {
    PresentCommit(d, e, LogEntries(d));
    NoLogs(Commit(d, e));
  }

  lemma NoLogs(d: Disk)
    requires forall n :: n in d.logs && n >= d.logNumber ==> d.logs[n] == LogFile([], 0)
    ensures LogEntries(d) == {} && SyncedEntries(d) == {}
  {
    EntriesNone();
  }

  lemma PresentCommit(d: Disk, e: Edit, joined: set<Entry>)
    requires (set n, x | n in e.added && n in d.tables && x in d.tables[n] :: x) == joined
    ensures Present(Commit(d, e)) == Present(d) + joined
  {
  }

  lemma FinishOpenKeeps(mod: nat, db: Db)
    requires Inv(mod, db) && Enabled(mod, db, FinishOpen)
    ensures Inv(mod, Apply(mod, db, FinishOpen))
  {
    OpenEntries(db.disk, db.edit);
    SecuredRecoverable(db.disk);
    EntriesNone();
  }

  predicate Flushing(step: Step) {
    step.WriteTable? || step.FlushFails? || step.PrepareEdit? || step.CommitEdit? || step.Install?
  }

  lemma FlushingKeeps(mod: nat, db: Db, step: Step)
    requires Inv(mod, db) && Enabled(mod, db, step) && Flushing(step)
    ensures Inv(mod, Apply(mod, db, step))
  {
    match step
    case WriteTable => WriteTableKeeps(mod, db);
    case FlushFails =>
    case PrepareEdit => PrepareKeeps(mod, db);
    case CommitEdit => CommitKeeps(mod, db);
    case Install => InstallKeeps(mod, db);
  }

  predicate Writing(step: Step) {
    step.Append? || step.SyncLog? || step.Ack? || step.Switch?
  }

  lemma WritingKeeps(mod: nat, db: Db, step: Step)
    requires Inv(mod, db) && Enabled(mod, db, step) && Writing(step)
    ensures Inv(mod, Apply(mod, db, step))
  {
    match step
    case Append(ops, sync) => AppendKeeps(mod, db, ops, sync);
    case SyncLog => SyncLogKeeps(mod, db);
    case Ack => AckKeeps(mod, db);
    case Switch => SwitchKeeps(mod, db);
  }

  predicate Recovering(step: Step) {
    step.Replay? || step.ReplayFails? || step.FinishOpen?
  }

  lemma RecoveringKeeps(mod: nat, db: Db, step: Step)
    requires Inv(mod, db) && Enabled(mod, db, step) && Recovering(step)
    ensures Inv(mod, Apply(mod, db, step))
  {
    match step
    case Replay(edit, tables) => ReplayKeeps(mod, db, edit, tables);
    case ReplayFails(tables) => ReplayFailsKeeps(mod, db, tables);
    case FinishOpen => FinishOpenKeeps(mod, db);
  }

  lemma StepKeeps(mod: nat, db: Db, step: Step)
    requires Inv(mod, db) && Enabled(mod, db, step)
    ensures Inv(mod, Apply(mod, db, step))
  {
    if Writing(step) {
      WritingKeeps(mod, db, step);
    } else if Flushing(step) {
      FlushingKeeps(mod, db, step);
    } else if Recovering(step) {
      RecoveringKeeps(mod, db, step);
    } else if step.Compact? {
      CompactKeeps(mod, db, step);
    } else if step.DeleteLog? || step.DeleteTable? {
      DeleteKeeps(mod, db, step);
    } else {
      CrashKeeps(mod, db, step);
    }
  }

  // ----- sequence numbers -----

  /** Everything a recovery or the open database could ever show. */
  ghost function Universe(db: Db): set<Entry> {
    if db.Up? then View(db) + Underway(db.m) else Recoverable(db.disk)
  }

  lemma DistinctSubset(S: set<Entry>, T: set<Entry>)
    requires Distinct(T) && S <= T
    ensures Distinct(S)
  {
  }

  lemma DistinctGrows(S: set<Entry>, b: Batch, last: nat)
    requires Distinct(S) && b.first == last + 1 && forall x :: x in S ==> x.ik.sn <= last
    ensures Distinct(S + Entries(b))
  {
  }

  /** With a log, the database in memory is what the files would give back. */
  lemma RecoverableIsView(mod: nat, db: Db)
    requires Inv(mod, db) && db.Up?
    ensures Recoverable(db.disk) <= View(db) + Underway(db.m)
    ensures UsesLog(mod) ==> Recoverable(db.disk) == View(db) + Underway(db.m)
  {
    var d, m := db.disk, db.m;
    EntriesNone();
    if m.inFlight.Some? {
      EntriesConcat(m.mem, [m.inFlight.value.batch]);
      EntriesOne(m.inFlight.value.batch);
    }
    forall n, x | InLog(d, n, x) ensures x in View(db) + Underway(m) {
      assert n == m.logNumber || n == m.logFile;
    }
    if UsesLog(mod) {
      LogHas(d, m.logFile);
      if m.imm.Some? && !m.flush.Durable? { LogHas(d, m.logNumber); }
    }
  }

  predicate Crash(step: Step) {
    step.Kill? || step.PowerLoss?
  }

  lemma UniverseShrinks(mod: nat, db: Db, step: Step)
    requires Inv(mod, db) && Enabled(mod, db, step) && !step.Append?
    ensures Universe(Apply(mod, db, step)) <= Universe(db)
  {
    if db.Up? && !Crash(step) {
      UniverseWorking(mod, db, step);
    } else if Crash(step) {
      if db.Up? { RecoverableIsView(mod, db); }
      if step.PowerLoss? { CutKeeps(db.disk, step.kept); }
    } else if step.Replay? {
      ReplaySame(db.disk, step.edit, step.tables);
    } else if step.ReplayFails? {
      TablesAside(db.disk, Apply(mod, db, step).disk);
    } else {
      OpenEntries(db.disk, db.edit);
      EntriesNone();
    }
  }

  lemma UniverseWorking(mod: nat, db: Db, step: Step)
    requires Inv(mod, db) && Enabled(mod, db, step) && !step.Append? && db.Up? && !Crash(step)
    ensures Universe(Apply(mod, db, step)) <= Universe(db)
  {
    if Writing(step) {
      UniverseWriting(mod, db, step);
    } else if step.CommitEdit? {
      CommitEntries(db.disk, db.m.flush.edit, db.m.imm.value, db.m.logNumber, db.m.flush.number);
    } else if step.Compact? {
      CompactEntries(db, step, Apply(mod, db, step).disk);
    } else if step.WriteTable? || step.DeleteTable? {
      TablesAside(db.disk, Apply(mod, db, step).disk);
    } else {
      UniverseSame(mod, db, step);
    }
  }

  lemma UniverseWriting(mod: nat, db: Db, step: Step)
    requires Inv(mod, db) && Enabled(mod, db, step) && Writing(step) && !step.Append?
    ensures Universe(Apply(mod, db, step)) <= Universe(db)
  {
    match step
    case Ack =>
      EntriesConcat(db.m.mem, [db.m.inFlight.value.batch]);
      EntriesOne(db.m.inFlight.value.batch);
    case SyncLog => LogSynced(db.disk, db.m.logFile);
    case Switch => EntriesNone();
  }

  lemma UniverseSame(mod: nat, db: Db, step: Step)
    requires Enabled(mod, db, step) && (step.FlushFails? || step.PrepareEdit? || step.Install? || step.DeleteLog?)
    ensures Universe(Apply(mod, db, step)) <= Universe(db)
  {
    assert Present(Apply(mod, db, step).disk) == Present(db.disk);
  }

  lemma NumbersBelow(db: Db)
    requires db.Up? && DiskOk(db.disk) && SequencesOk(db.disk, db.m) && db.m.inFlight.None?
    ensures forall x :: x in Universe(db) ==> x.ik.sn <= db.m.lastSequence
  {
  }

  /** A batch is numbered above everything that could still be there. */
  lemma UniverseGrows(mod: nat, db: Db, ops: seq<Op>, sync: bool)
    requires Inv(mod, db) && Enabled(mod, db, Append(ops, sync))
    ensures forall x :: x in Universe(db) ==> x.ik.sn <= db.m.lastSequence
    ensures Universe(Apply(mod, db, Append(ops, sync))) == Universe(db) + Entries(Batch(db.m.lastSequence + 1, ops))
  {
    NumbersBelow(db);
    ViewGrows(mod, db, ops, sync);
  }

  lemma ViewGrows(mod: nat, db: Db, ops: seq<Op>, sync: bool)
    requires Enabled(mod, db, Append(ops, sync))
    ensures var db' := Apply(mod, db, Append(ops, sync));
            View(db') == View(db) && Underway(db'.m) == Entries(Batch(db.m.lastSequence + 1, ops)) && Underway(db.m) == {}
  {
    var d, d' := db.disk, Apply(mod, db, Append(ops, sync)).disk;
    assert d'.live == d.live && d'.tables == d.tables && d'.dropped == d.dropped;
    assert Present(d') == Present(d);
  }

  // ----- what compactions dropped -----

  /** Newer entries on top of two sets that read the same. */
  lemma SameViewUnder(S: set<Entry>, T: set<Entry>, U: set<Entry>, h: nat)
    requires SameView(S, T, h) && S <= T && Distinct(U + T) && Older(T, U)
    ensures SameView(U + S, U + T, h)
  {
    DistinctSubset(U, U + T);
    DistinctSubset(T, U + T);
    DistinctSubset(S, U + T);
    forall k, s | h <= s ensures Visible(Look(U + S, k, s)) == Visible(Look(U + T, k, s)) {
      LookLayered(U, S, k, s);
      LookLayered(U, T, k, s);
      assert Visible(Look(S, k, s)) == Visible(Look(T, k, s));
    }
  }

  lemma FadedCommit(mod: nat, db: Db)
    requires Inv(mod, db) && Enabled(mod, db, CommitEdit) && Faded(db.disk) && Distinct(Universe(db))
    ensures Faded(Apply(mod, db, CommitEdit).disk)
  {
    CommitEntries(db.disk, db.m.flush.edit, db.m.imm.value, db.m.logNumber, db.m.flush.number);
    FadedUnder(db.disk, Apply(mod, db, CommitEdit).disk, EntriesOf(db.m.imm.value), Universe(db));
  }

  lemma FadedOpen(mod: nat, db: Db)
    requires Inv(mod, db) && Enabled(mod, db, FinishOpen) && Faded(db.disk) && Distinct(Universe(db))
    ensures Faded(Apply(mod, db, FinishOpen).disk)
  {
    OpenEntries(db.disk, db.edit);
    FadedUnder(db.disk, Apply(mod, db, FinishOpen).disk, LogEntries(db.disk), Universe(db));
  }

  lemma FadedTables(mod: nat, db: Db, step: Step)
    requires Inv(mod, db) && Enabled(mod, db, step) && Faded(db.disk)
    requires step.WriteTable? || step.DeleteTable? || step.ReplayFails? || step.Replay?
    ensures Faded(Apply(mod, db, step).disk)
  {
    var d, d' := db.disk, Apply(mod, db, step).disk;
    TablesAside(d, d.(tables := d'.tables));
  }

  lemma FadedStep(mod: nat, db: Db, step: Step)
    requires Inv(mod, db) && Enabled(mod, db, step) && Faded(db.disk) && Distinct(Universe(db))
    ensures Faded(Apply(mod, db, step).disk)
  {
    if step.CommitEdit? {
      FadedCommit(mod, db);
    } else if step.FinishOpen? {
      FadedOpen(mod, db);
    } else if step.Compact? {
      FadedCompacted(mod, db, step);
    } else if step.WriteTable? || step.DeleteTable? || step.ReplayFails? || step.Replay? {
      FadedTables(mod, db, step);
    } else {
      FadedSame(mod, db, step);
    }
  }

  lemma FadedCompacted(mod: nat, db: Db, step: Step)
    requires Inv(mod, db) && Enabled(mod, db, step) && Faded(db.disk) && step.Compact?
    ensures Faded(Apply(mod, db, step).disk)
  {
    CompactEntries(db, step, Apply(mod, db, step).disk);
    FadedCompact(db.disk, Apply(mod, db, step).disk, step.smallest);
  }

  /** The other steps leave the tables and the manifest alone. */
  lemma FadedSame(mod: nat, db: Db, step: Step)
    requires Enabled(mod, db, step) && Faded(db.disk)
    requires !step.CommitEdit? && !step.FinishOpen? && !step.Compact?
    requires !step.WriteTable? && !step.DeleteTable? && !step.ReplayFails? && !step.Replay?
    ensures Faded(Apply(mod, db, step).disk)
  {
    var d, d' := db.disk, Apply(mod, db, step).disk;
    assert d'.live == d.live && d'.tables == d.tables && d'.dropped == d.dropped;
    assert d'.horizon == d.horizon && d'.lastSequence == d.lastSequence;
    assert Present(d') == Present(d);
  }

  lemma FadedUnder(d: Disk, d': Disk, joined: set<Entry>, all: set<Entry>)
    requires Faded(d) && d'.horizon == d.horizon && d.lastSequence <= d'.lastSequence
    requires Present(d') == Present(d) + joined && LiveEntries(d') == LiveEntries(d) + joined
    requires Distinct(all) && LiveEntries(d) + joined <= all && Older(LiveEntries(d), joined)
    ensures Faded(d')
  {
    DistinctSubset(joined + LiveEntries(d), all);
    SameViewUnder(Present(d), LiveEntries(d), joined, d.horizon);
    assert joined + Present(d) == Present(d') && joined + LiveEntries(d) == LiveEntries(d');
  }

  lemma FadedCompact(d: Disk, d': Disk, smallest: nat)
    requires Faded(d) && SameView(Present(d'), Present(d), smallest) && LiveEntries(d') == LiveEntries(d)
    requires d'.horizon == (if d.horizon < smallest then smallest else d.horizon) <= d'.lastSequence
    ensures Faded(d')
  {
    forall k, s | d'.horizon <= s ensures Visible(Look(Present(d'), k, s)) == Visible(Look(LiveEntries(d'), k, s)) {
      assert Visible(Look(Present(d'), k, s)) == Visible(Look(Present(d), k, s));
      assert Visible(Look(Present(d), k, s)) == Visible(Look(LiveEntries(d), k, s));
    }
  }

  // ----- main results -----

  /** In every reachable state: recovery would give every acknowledged write, even after
      a power loss those that were owed, and nothing never submitted; no two entries it
      could give share a user key and sequence number; and what compactions have dropped
      from the tables no reader can miss. */
  lemma {:induction false} RunsAreSafe(mod: nat, dbs: seq<Db>, steps: seq<Step>, i: nat)
    requires Trace(mod, dbs, steps) && dbs[0] == Fresh() && i < |dbs|
    ensures Inv(mod, dbs[i]) && Distinct(Universe(dbs[i])) && Faded(dbs[i].disk)
  {
    if i == 0 {
      FreshOk(mod);
    } else {
      var db, step := dbs[i - 1], steps[i - 1];
      RunsAreSafe(mod, dbs, steps, i - 1);
      assert Goes(mod, db, step, dbs[i]);
      StepKeeps(mod, db, step);
      FadedStep(mod, db, step);
      DistinctStep(mod, db, step);
    }
  }

  lemma DistinctStep(mod: nat, db: Db, step: Step)
    requires Inv(mod, db) && Enabled(mod, db, step) && Distinct(Universe(db))
    ensures Distinct(Universe(Apply(mod, db, step)))
  {
    if step.Append? {
      UniverseGrows(mod, db, step.ops, step.sync);
      DistinctGrows(Universe(db), Batch(db.m.lastSequence + 1, step.ops), db.m.lastSequence);
    } else {
      UniverseShrinks(mod, db, step);
      DistinctSubset(Universe(Apply(mod, db, step)), Universe(db));
    }
  }

  /** Reads of an open database at the horizon or later are as if no entry it was ever
      given had been dropped. */
  lemma ReadsAreRight(mod: nat, db: Db)
    requires Inv(mod, db) && db.Up? && Distinct(Universe(db)) && Faded(db.disk)
    ensures SameView(Actual(db), View(db), db.disk.horizon) && db.disk.horizon <= db.m.lastSequence
  {
    var d, m := db.disk, db.m;
    var U := EntriesOf(Before(m)) + EntriesOf(m.mem);
    EntriesNone();
    DistinctSubset(U + LiveEntries(d), Universe(db));
    SameViewUnder(Present(d), LiveEntries(d), U, d.horizon);
    if m.flush.Durable? { assert EntriesOf(m.imm.value) <= Present(d); }
    assert U + Present(d) == Actual(db) && U + LiveEntries(d) == View(db);
  }

  lemma FreshOk(mod: nat)
    ensures Inv(mod, Fresh()) && Universe(Fresh()) == {} && Faded(Fresh().disk)
  {
  }

  /** A recovery that succeeds opens the database on exactly what the files hold. */
  lemma Reopens(mod: nat, down: Db, edit: Edit, tables: map<nat, set<Entry>>)
    requires Inv(mod, down) && Enabled(mod, down, Replay(edit, tables))
    ensures var up := Apply(mod, Apply(mod, down, Replay(edit, tables)), FinishOpen);
            && Inv(mod, up) && View(up) == Recoverable(down.disk)
            && forall x :: x in View(up) ==> x.ik.sn <= up.m.lastSequence
  {
    var opening := Apply(mod, down, Replay(edit, tables));
    ReplayKeeps(mod, down, edit, tables);
    ReplaySame(down.disk, edit, tables);
    OpenEntries(opening.disk, opening.edit);
    FinishOpenKeeps(mod, opening);
    EntriesNone();
  }

  /** A crash at any moment, then a recovery that succeeds. */
  lemma CrashRecovery(mod: nat, db: Db, crash: Step, edit: Edit, tables: map<nat, set<Entry>>)
    requires Inv(mod, db) && Enabled(mod, db, crash) && Crash(crash)
    requires Enabled(mod, Apply(mod, db, crash), Replay(edit, tables))
    ensures var up := Apply(mod, Apply(mod, Apply(mod, db, crash), Replay(edit, tables)), FinishOpen);
            && db.clients.owed <= View(up) <= db.clients.submitted
            && (crash.Kill? && UsesLog(mod) ==> db.clients.acked <= View(up))
            && (crash.Kill? && UsesLog(mod) && db.Up? ==> View(up) == View(db) + Underway(db.m))
            && forall x :: x in View(up) ==> x.ik.sn <= up.m.lastSequence
  {
    var down := Apply(mod, db, crash);
    CrashKeeps(mod, db, crash);
    SecuredRecoverable(down.disk);
    Reopens(mod, down, edit, tables);
    if crash.Kill? && UsesLog(mod) && db.Up? { RecoverableIsView(mod, db); }
  }

  lemma ReplaySame(d: Disk, edit: Edit, tables: map<nat, set<Entry>>)
    requires DiskOk(d) && Replays(d, edit, tables)
    ensures Recoverable(d.(tables := d.tables + tables, logs := d.logs[edit.logNumber := LogFile([], 0)])) == Recoverable(d)
  {
    var d1 := d.(tables := d.tables + tables);
    TablesAside(d, d1);
    LogStarts(d1, edit.logNumber);
  }

  // ----- where the promise ends -----

  /** In the modes without a log a crash loses exactly what has not been flushed. */
  lemma WithoutLog(mod: nat, db: Db)
    requires Inv(mod, db) && db.Up? && db.m.inFlight.None? && !UsesLog(mod)
    ensures View(db) <= Recoverable(Apply(mod, db, Kill).disk) <==>
              EntriesOf(db.m.mem) == {} && (db.m.imm.None? || db.m.flush.Durable? || EntriesOf(db.m.imm.value) == {})
  {
    var d, m := db.disk, db.m;
    EntriesNone();
    assert LogEntries(d) == {} by {
      forall n, x | InLog(d, n, x) ensures false { }
    }
    if x :| x in EntriesOf(m.mem) {
      assert x !in LiveEntries(d);
    }
    if m.imm.Some? && !m.flush.Durable? {
      if x :| x in EntriesOf(m.imm.value) {
        assert x !in LiveEntries(d);
      }
    }
  }

  /** Whoever survives, everything older than it survives too. */
  ghost predicate PrefixConsistent(all: set<Entry>, after: set<Entry>) {
    forall x, y :: x in all && y in after && x.ik.sn < y.ik.sn ==> x in after
  }

  /** Two logs of which only the parts A1 and B1 survive, behind tables T. */
  lemma TwoLogs(T: set<Entry>, A1: set<Entry>, A2: set<Entry>, B1: set<Entry>, B2: set<Entry>)
    requires Older(T, A1 + A2) && Older(T, B1 + B2) && Older(A1 + A2, B1 + B2) && Older(A1, A2) && Older(B1, B2)
    ensures PrefixConsistent(T + A1 + A2 + B1 + B2, T + A1 + B1) <==> A2 == {} || B1 == {}
  {
    if x :| x in A2 {
      if y :| y in B1 {
        assert x in T + A1 + A2 + B1 + B2 && y in T + A1 + B1 && x.ik.sn < y.ik.sn;
        assert x !in T && x !in A1 && x !in B1;
      }
    }
  }

  lemma Regroup(T: set<Entry>, A1: set<Entry>, A2: set<Entry>, B1: set<Entry>, B2: set<Entry>)
    ensures T + (A1 + A2) + (B1 + B2) == T + A1 + A2 + B1 + B2
  {
  }

  lemma BatchOf(bs: seq<Batch>, x: Entry) returns (i: nat)
    requires x in EntriesOf(bs)
    ensures i < |bs| && bs[i].first <= x.ik.sn < bs[i].first + |bs[i].ops|
  {
    var b :| b in bs && x in Entries(b);
    i :| 0 <= i < |bs| && bs[i] == b;
  }

  lemma SplitBatches(bs: seq<Batch>, k: nat)
    requires Ascending(bs) && k <= |bs|
    ensures EntriesOf(bs) == EntriesOf(bs[..k]) + EntriesOf(bs[k..])
    ensures Older(EntriesOf(bs[..k]), EntriesOf(bs[k..]))
  {
    assert bs == bs[..k] + bs[k..];
    EntriesConcat(bs[..k], bs[k..]);
    forall x, y | x in EntriesOf(bs[..k]) && y in EntriesOf(bs[k..]) ensures x.ik.sn < y.ik.sn {
      var i := BatchOf(bs[..k], x);
      var j := BatchOf(bs[k..], y);
      assert bs[..k][i] == bs[i] && bs[k..][j] == bs[k + j];
    }
  }

  lemma PendingLayers(d: Disk, m: Memory)
    requires DiskOk(d) && Layers(d, m) && SequencesOk(d, m)
    ensures Ascending(Pending(m)) && EntriesOf(Pending(m)) == EntriesOf(m.mem) + Underway(m)
    ensures Older(LiveEntries(d), EntriesOf(Pending(m)))
    ensures m.imm.Some? ==> Older(EntriesOf(m.imm.value), EntriesOf(Pending(m)))
  {
    if m.inFlight.Some? {
      AckLayers(d, m, m.(mem := m.mem + [m.inFlight.value.batch], inFlight := None,
                         lastSequence := m.lastSequence + |m.inFlight.value.batch.ops|));
      EntriesConcat(m.mem, [m.inFlight.value.batch]);
      EntriesOne(m.inFlight.value.batch);
    }
  }

  /** The older log still needed, if any. */
  function Before(m: Memory): seq<Batch> {
    if m.imm.Some? && !m.flush.Durable? then m.imm.value else []
  }

  lemma Survivors(mod: nat, db: Db, kept: map<nat, nat>)
    requires Inv(mod, db) && db.Up? && UsesLog(mod) && Enabled(mod, db, PowerLoss(kept))
    ensures var a := if Before(db.m) == [] then 0 else kept[db.m.logNumber];
            && a <= |Before(db.m)| && kept[db.m.logFile] <= |Pending(db.m)|
            && Recoverable(Apply(mod, db, PowerLoss(kept)).disk) ==
               LiveEntries(db.disk) + EntriesOf(Before(db.m)[..a]) + EntriesOf(Pending(db.m)[..kept[db.m.logFile]])
  {
    var m, d' := db.m, Apply(mod, db, PowerLoss(kept)).disk;
    EntriesNone();
    LogHas(d', m.logFile);
    if Before(m) != [] { LogHas(d', m.logNumber); }
    forall n, x | InLog(d', n, x)
      ensures x in EntriesOf(Pending(m)[..kept[m.logFile]]) || (Before(m) != [] && x in EntriesOf(Before(m)[..kept[m.logNumber]]))
    {
      assert n == m.logNumber || n == m.logFile;
    }
  }

  lemma AllHistory(mod: nat, db: Db)
    requires Inv(mod, db) && db.Up?
    ensures View(db) + Underway(db.m) == LiveEntries(db.disk) + EntriesOf(Before(db.m)) + EntriesOf(Pending(db.m))
  {
    PendingLayers(db.disk, db.m);
    EntriesNone();
  }

  /** Writing goes on in a new log without syncing the one before it, so after a power
      loss the survivors need not be a prefix of the history. They are exactly when the
      older log lost nothing or the newer one kept nothing. */
  lemma PrefixExact(mod: nat, db: Db, kept: map<nat, nat>)
    requires Inv(mod, db) && db.Up? && UsesLog(mod) && Enabled(mod, db, PowerLoss(kept))
    ensures PrefixConsistent(View(db) + Underway(db.m), Recoverable(Apply(mod, db, PowerLoss(kept)).disk)) <==>
              || Before(db.m) == []
              || EntriesOf(Before(db.m)[kept[db.m.logNumber]..]) == {}
              || EntriesOf(Pending(db.m)[..kept[db.m.logFile]]) == {}
  {
    var d, m := db.disk, db.m;
    var before, b := Before(m), kept[m.logFile];
    var a := if before == [] then 0 else kept[m.logNumber];
    Survivors(mod, db, kept);
    PendingLayers(d, m);
    SplitBatches(before, a);
    SplitBatches(Pending(m), b);
    EntriesNone();
    var T := LiveEntries(d);
    AllHistory(mod, db);
    var A1, A2, B1, B2 := EntriesOf(before[..a]), EntriesOf(before[a..]), EntriesOf(Pending(m)[..b]), EntriesOf(Pending(m)[b..]);
    Regroup(T, A1, A2, B1, B2);
    TwoLogs(T, A1, A2, B1, B2);
  }

  /** What the older log, if it is still needed, has not synced. */
  function Unsynced(db: Db): seq<Batch>
    requires db.Up?
  {
    var before := Before(db.m);
    if db.m.logNumber in db.disk.logs && db.disk.logs[db.m.logNumber].synced <= |before|
    then before[db.disk.logs[db.m.logNumber].synced..] else before
  }

  ghost predicate LossIsPrefix(mod: nat, db: Db, kept: map<nat, nat>)
    requires db.Up? && Enabled(mod, db, PowerLoss(kept))
  {
    PrefixConsistent(View(db) + Underway(db.m), Recoverable(Apply(mod, db, PowerLoss(kept)).disk))
  }

  /** Keeps of the older log what it synced, of every other log everything. */
  ghost function WorstLoss(db: Db): map<nat, nat>
    requires db.Up?
  {
    map n | n in db.disk.logs :: if n == db.m.logNumber then db.disk.logs[n].synced else |db.disk.logs[n].batches|
  }

  lemma WorstIsPossible(mod: nat, db: Db)
    requires Inv(mod, db) && db.Up? && UsesLog(mod) && Before(db.m) != []
    ensures Enabled(mod, db, PowerLoss(WorstLoss(db)))
    ensures Before(db.m)[WorstLoss(db)[db.m.logNumber]..] == Unsynced(db)
    ensures Pending(db.m)[..WorstLoss(db)[db.m.logFile]] == Pending(db.m)
  {
  }

  lemma LessKeepsLess(mod: nat, db: Db, kept: map<nat, nat>)
    requires Inv(mod, db) && db.Up? && UsesLog(mod) && Enabled(mod, db, PowerLoss(kept)) && Before(db.m) != []
    ensures EntriesOf(Before(db.m)[kept[db.m.logNumber]..]) <= EntriesOf(Unsynced(db))
    ensures EntriesOf(Pending(db.m)[..kept[db.m.logFile]]) <= EntriesOf(Pending(db.m))
  {
    var a, b := db.disk.logs[db.m.logNumber].synced, kept[db.m.logNumber];
    assert Before(db.m)[b..] == Unsynced(db)[b - a..];
    EntriesPrefix(Pending(db.m), kept[db.m.logFile]);
  }

  /** Before any power loss: whatever it may keep, what survives is a prefix of the
      history, if and only if the older log has nothing unsynced or the newer one has
      nothing at all. */
  lemma PrefixAfterEveryLoss(mod: nat, db: Db)
    requires Inv(mod, db) && db.Up? && UsesLog(mod)
    ensures (forall kept :: Enabled(mod, db, PowerLoss(kept)) ==> LossIsPrefix(mod, db, kept)) <==>
              EntriesOf(Unsynced(db)) == {} || EntriesOf(Pending(db.m)) == {}
  {
    EntriesNone();
    if Before(db.m) != [] {
      WorstIsPossible(mod, db);
      PrefixExact(mod, db, WorstLoss(db));
    }
    forall kept | Enabled(mod, db, PowerLoss(kept)) && (EntriesOf(Unsynced(db)) == {} || EntriesOf(Pending(db.m)) == {})
      ensures LossIsPrefix(mod, db, kept)
    {
      if Before(db.m) != [] { LessKeepsLess(mod, db, kept); }
      PrefixExact(mod, db, kept);
    }
  }

  // ----- runs that show it -----

  const PUT: Op := Op(TypeValue, 1, "v")
  const FIRST: Batch := Batch(1, [PUT])
  const SECOND: Batch := Batch(2, [PUT])

  const OPENED: Db := Up(Disk(3, {}, 4, 0, map[], map[3 := LogFile([], 0)], {}, 0), Clients({}, {}, {}),
                         Memory([], None, None, 3, 3, 4, 0, Idle, false))

  const OPEN: seq<Step> := [Replay(Edit(3, {}, 4, 0), map[]), FinishOpen]

  lemma OpenFresh(mod: nat) returns (opening: Db)
    ensures Goes(mod, Fresh(), OPEN[0], opening) && Goes(mod, opening, OPEN[1], OPENED)
  {
    opening := Apply(mod, Fresh(), OPEN[0]);
    var m: map<nat, set<Entry>> := map[];
    assert m + m == m;
  }

  lemma OpenedOk(mod: nat)
    ensures Inv(mod, OPENED)
  {
    var opening := OpenFresh(mod);
    FreshOk(mod);
    StepKeeps(mod, Fresh(), OPEN[0]);
    StepKeeps(mod, opening, OPEN[1]);
  }

  lemma Mode7Write() returns (d3: Db, d4: Db)
    ensures Goes(7, OPENED, Append([PUT], true), d3) && Goes(7, d3, Ack, d4)
    ensures d4.disk == OPENED.disk && EntryAt(FIRST, 0) in d4.clients.acked
  {
    d3 := Apply(7, OPENED, Append([PUT], true));
    d4 := Apply(7, d3, Ack);
    assert EntryAt(FIRST, 0) in Entries(FIRST);
  }

  /** One write in mode 7, acknowledged with sync, then a crash: it is gone. */
  lemma Mode7LosesAcknowledgedWrite() returns (dbs: seq<Db>, steps: seq<Step>)
    ensures Trace(7, dbs, steps) && dbs[0] == Fresh() && |steps| == 4 && steps[2] == Append([PUT], true) && steps[3] == Ack
    ensures EntryAt(FIRST, 0) in dbs[4].clients.acked && Recoverable(Apply(7, dbs[4], Kill).disk) == {}
  {
    var d1 := OpenFresh(7);
    var d3, d4 := Mode7Write();
    steps := OPEN + [Append([PUT], true), Ack];
    dbs := [Fresh(), d1, OPENED, d3, d4];
    NoLogs(OPENED.disk);
  }

  lemma FirstWrite() returns (d3: Db, d4: Db)
    ensures Goes(0, OPENED, Append([PUT], false), d3) && Goes(0, d3, Ack, d4)
    ensures d4.Up? && d4.m == Memory([FIRST], None, None, 3, 3, 4, 1, Idle, false)
    ensures d4.disk == OPENED.disk.(logs := map[3 := LogFile([FIRST], 0)])
  {
    d3 := Apply(0, OPENED, Append([PUT], false));
    d4 := Apply(0, d3, Ack);
    assert [] + [FIRST] == [FIRST];
  }

  /** The state with an unsynced write in one log and a synced one in the next. */
  ghost predicate TwoLogsOpen(db: Db) {
    && db.Up? && db.m == Memory([SECOND], Some([FIRST]), None, 4, 3, 5, 2, Idle, false)
    && db.disk.logs == map[3 := LogFile([FIRST], 0), 4 := LogFile([SECOND], 1)]
  }

  lemma SecondWrite(d4: Db) returns (d5: Db, d6: Db, d7: Db, d8: Db)
    requires d4.Up? && d4.m == Memory([FIRST], None, None, 3, 3, 4, 1, Idle, false)
    requires d4.disk.logs == map[3 := LogFile([FIRST], 0)]
    ensures Goes(0, d4, Switch, d5) && Goes(0, d5, Append([PUT], true), d6) && Goes(0, d6, SyncLog, d7)
    ensures Goes(0, d7, Ack, d8) && TwoLogsOpen(d8)
  {
    d5 := Apply(0, d4, Switch);
    d6 := Apply(0, d5, Append([PUT], true));
    d7 := Apply(0, d6, SyncLog);
    d8 := Apply(0, d7, Ack);
    assert [] + [SECOND] == [SECOND];
  }

  /** Opens a new database and writes without sync. */
  lemma OneWrite() returns (dbs: seq<Db>, steps: seq<Step>)
    ensures Trace(0, dbs, steps) && dbs[0] == Fresh() && |dbs| == 5 && |steps| == 4 && dbs[4].Up?
    ensures dbs[4].m == Memory([FIRST], None, None, 3, 3, 4, 1, Idle, false)
    ensures dbs[4].disk.logs == map[3 := LogFile([FIRST], 0)]
  {
    var d1 := OpenFresh(0);
    var d3, d4 := FirstWrite();
    steps := OPEN + [Append([PUT], false), Ack];
    dbs := [Fresh(), d1, OPENED, d3, d4];
  }

  /** Then switches memtables and writes with sync. */
  lemma TwoWrites() returns (dbs: seq<Db>, steps: seq<Step>)
    ensures Trace(0, dbs, steps) && dbs[0] == Fresh() && |dbs| == 9 && TwoLogsOpen(dbs[8])
  {
    var ds, ss := OneWrite();
    var d5, d6, d7, d8 := SecondWrite(ds[4]);
    steps := ss + [Switch, Append([PUT], true), SyncLog, Ack];
    dbs := ds + [d5, d6, d7, d8];
  }

  lemma GapBetweenLogs(db: Db, kept: map<nat, nat>)
    requires TwoLogsOpen(db) && kept == map[3 := 0, 4 := 1]
    ensures KeepsSynced(db.disk.logs, kept) && Before(db.m) == [FIRST] && Pending(db.m) == [SECOND]
    ensures EntriesOf(Before(db.m)[kept[3]..]) != {} && EntriesOf(Pending(db.m)[..kept[4]]) != {}
  {
    SomeEntries(FIRST);
    SomeEntries(SECOND);
    assert [FIRST][0..] == [FIRST] && [SECOND][..1] == [SECOND];
  }

  lemma SomeEntries(b: Batch)
    ensures b.ops != [] ==> EntriesOf([b]) != {}
  {
    if b.ops != [] {
      EntriesOne(b);
      assert EntryAt(b, 0) in Entries(b);
    }
  }

  /** It does happen: a power loss takes the first of two writes and leaves the second. */
  lemma NewerOutlivesOlder() returns (dbs: seq<Db>, steps: seq<Step>, kept: map<nat, nat>)
    ensures Trace(0, dbs, steps) && dbs[0] == Fresh() && |dbs| == 9
    ensures dbs[8].Up? && Enabled(0, dbs[8], PowerLoss(kept))
    ensures !PrefixConsistent(View(dbs[8]) + Underway(dbs[8].m), Recoverable(Apply(0, dbs[8], PowerLoss(kept)).disk))
  {
    dbs, steps := TwoWrites();
    kept := map[3 := 0, 4 := 1];
    RunsAreSafe(0, dbs, steps, 8);
    GapBetweenLogs(dbs[8], kept);
    PrefixExact(0, dbs[8], kept);
  }
}
