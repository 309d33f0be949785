/** What survives a crash: the write-ahead logs, the manifest and the level-0 tables
    through writes, memtable switches, flushes, log deletion, crashes and recovery
    (db/db_impl.cc, db/version_set.cc).

    A log is its list of batches and how many of them are known to be on disk. That a
    log cut off at any byte reads back as a prefix of its records is LogFile.TornTail. */
module Durability {
  import opened InternalKeys
  import opened DropView

  datatype Op = Op(kind: ValueType, user: UserKey, value: string)

  /** A write batch and the sequence number of its first operation. */
  datatype Batch = Batch(first: nat, ops: seq<Op>)

  function EntryAt(b: Batch, i: nat): Entry
    requires i < |b.ops|
  {
    Entry(IKey(b.ops[i].user, b.first + i), b.ops[i].kind, b.ops[i].value)
  }

  function Entries(b: Batch): set<Entry> {
    set i: nat | i < |b.ops| :: EntryAt(b, i)
  }

  function EntriesOf(bs: seq<Batch>): set<Entry> {
    set b, e | b in bs && e in Entries(b) :: e
  }

  datatype LogFile = LogFile(batches: seq<Batch>, synced: nat)

  /** The files of the database and what the manifest says; for the record, the entries
      that compactions have dropped, and the largest of their smallest snapshots. */
  datatype Disk = Disk(logNumber: nat, live: set<nat>, nextFile: nat, lastSequence: nat,
                       tables: map<nat, set<Entry>>, logs: map<nat, LogFile>, dropped: set<Entry>, horizon: nat)

  /** What the live tables hold. */
  ghost function Present(d: Disk): set<Entry> {
    set n, e | n in d.live && n in d.tables && e in d.tables[n] :: e
  }

  /** What the tables were given, whether or not a compaction has dropped it since. */
  ghost function LiveEntries(d: Disk): set<Entry> {
    Present(d) + d.dropped
  }

  /** From the horizon on, what was dropped makes no difference to a reader. */
  ghost predicate Faded(d: Disk) {
    d.horizon <= d.lastSequence && SameView(Present(d), LiveEntries(d), d.horizon)
  }

  ghost predicate InLog(d: Disk, n: nat, e: Entry) {
    n in d.logs && n >= d.logNumber && e in EntriesOf(d.logs[n].batches)
  }

  ghost predicate InSynced(d: Disk, n: nat, e: Entry) {
    && n in d.logs && n >= d.logNumber && d.logs[n].synced <= |d.logs[n].batches|
    && e in EntriesOf(d.logs[n].batches[..d.logs[n].synced])
  }

  /** Recovery replays the logs the manifest does not rule out. */
  ghost function LogEntries(d: Disk): set<Entry> {
    set n, e | n in d.logs && e in EntriesOf(d.logs[n].batches) && InLog(d, n, e) :: e
  }

  ghost function SyncedEntries(d: Disk): set<Entry> {
    set n, e | n in d.logs && e in EntriesOf(d.logs[n].batches) && InSynced(d, n, e) :: e
  }

  /** What a recovery from this disk gives. */
  ghost function Recoverable(d: Disk): set<Entry> {
    LiveEntries(d) + LogEntries(d)
  }

  /** What it gives even if everything unsynced is lost. */
  ghost function Secured(d: Disk): set<Entry> {
    LiveEntries(d) + SyncedEntries(d)
  }

  /** Every entry of S is older than every entry of T. */
  ghost predicate Older(S: set<Entry>, T: set<Entry>) {
    forall x, y :: x in S && y in T ==> x.ik.sn < y.ik.sn
  }

  predicate Ascending(bs: seq<Batch>) {
    forall i, j :: 0 <= i < j < |bs| ==> bs[i].first + |bs[i].ops| <= bs[j].first
  }

  /** Each log the manifest asks for has its batches in order, and the later logs have
      the newer ones. */
  ghost predicate LogsOrdered(d: Disk) {
    && (forall n :: n in d.logs && n >= d.logNumber ==> Ascending(d.logs[n].batches))
    && (forall n, k :: n in d.logs && k in d.logs && d.logNumber <= n < k ==>
          Older(EntriesOf(d.logs[n].batches), EntriesOf(d.logs[k].batches)))
  }

  /** Tables with larger numbers hold the newer entries, and none is empty. */
  ghost predicate Aged(numbers: set<nat>, tables: map<nat, set<Entry>>) {
    && (forall n :: n in numbers ==> n in tables && tables[n] != {})
    && (forall n, k :: n in numbers && k in numbers && n < k && n in tables && k in tables ==> Older(tables[n], tables[k]))
  }

  datatype Option<T> = None | Some(value: T)

  /** A manifest record in the making. */
  datatype Edit = Edit(logNumber: nat, added: set<nat>, nextFile: nat, lastSequence: nat)

  /** How far the flush of the immutable memtable has come. */
  datatype Flush = Idle | Written(number: nat) | Editing(number: nat, edit: Edit) | Durable(number: nat, edit: Edit)

  datatype InFlight = InFlight(batch: Batch, sync: bool)

  datatype Memory = Memory(
    mem: seq<Batch>, imm: Option<seq<Batch>>, inFlight: Option<InFlight>,
    logFile: nat,      // logfile_number_
    logNumber: nat,    // versions_->LogNumber()
    nextFile: nat, lastSequence: nat, flush: Flush, failed: bool)

  /** What clients know: every entry ever submitted, the entries of acknowledged writes,
      and those of them that must outlive a power loss. */
  datatype Clients = Clients(submitted: set<Entry>, acked: set<Entry>, owed: set<Entry>)

  datatype Db =
    | Down(disk: Disk, clients: Clients)
    | Opening(disk: Disk, clients: Clients, edit: Edit)
    | Up(disk: Disk, clients: Clients, m: Memory)

  /** In modes 7 and 8 Write skips the log. */
  predicate UsesLog(mod: nat) {
    mod <= 6 || mod >= 9
  }

  datatype Step =
    | Append(ops: seq<Op>, sync: bool)
    | SyncLog              // only for a write that asked for it
    | Ack
    | Switch
    | WriteTable
    | FlushFails
    | PrepareEdit
    | CommitEdit
    | Install
    | Compact(removed: set<nat>, added: map<nat, set<Entry>>, smallest: nat, next: nat)
    | DeleteLog(number: nat)
    | DeleteTable(number: nat)
    | Kill
    | PowerLoss(kept: map<nat, nat>)
    | Replay(edit: Edit, tables: map<nat, set<Entry>>)
    | ReplayFails(tables: map<nat, set<Entry>>)
    | FinishOpen

  /** A power loss keeps of each log any prefix that has all it ever synced. */
  ghost predicate KeepsSynced(logs: map<nat, LogFile>, kept: map<nat, nat>) {
    && kept.Keys == logs.Keys
    && forall n :: n in logs ==> logs[n].synced <= kept[n] <= |logs[n].batches|
  }

  function Cut(logs: map<nat, LogFile>, kept: map<nat, nat>): map<nat, LogFile>
    requires kept.Keys == logs.Keys
    requires forall n :: n in logs ==> kept[n] <= |logs[n].batches|
  {
    map n | n in logs :: LogFile(logs[n].batches[..kept[n]], kept[n])
  }

  ghost function TableEntries(tables: map<nat, set<Entry>>): set<Entry> {
    set n, e | n in tables && e in tables[n] :: e
  }

  ghost predicate ToReplay(d: Disk, n: nat, b: Batch) {
    n in d.logs && n >= d.logNumber && b in d.logs[n].batches
  }

  /** The sequence number of a batch's last operation. */
  function LastOf(b: Batch): int {
    b.first + |b.ops| - 1
  }

  /** The largest number used: by the logs, or else by what the manifest records. */
  ghost predicate Reaches(d: Disk, last: nat) {
    && d.lastSequence <= last
    && (forall n, b :: ToReplay(d, n, b) ==> LastOf(b) <= last)
    && (last == d.lastSequence || exists n, b :: ToReplay(d, n, b) && LastOf(b) == last)
  }

  /** What replaying the logs may write: new tables that together hold the logs' entries,
      numbered by age, and an edit that starts a log no other log has the number of. */
  ghost predicate Replays(d: Disk, edit: Edit, tables: map<nat, set<Entry>>) {
    && edit.added == tables.Keys
    && TableEntries(tables) == LogEntries(d)
    && (LogsOrdered(d) ==> Aged(tables.Keys, tables))
    && (forall n :: n in tables ==> d.nextFile < n < edit.nextFile) // the new manifest has number d.nextFile
    && (forall n :: n in d.logs ==> n < edit.logNumber)
    && d.nextFile < edit.logNumber < edit.nextFile
    && Reaches(d, edit.lastSequence)
    && forall e :: e in LogEntries(d) ==> e.ik.sn <= edit.lastSequence
  }

  /** What a compaction may do to the contents of the tables, see CompactionExact. */
  ghost predicate Drops(before: set<Entry>, after: set<Entry>, smallest: nat) {
    after <= before && SameView(after, before, smallest)
  }

  function Compacted(d: Disk, removed: set<nat>, added: map<nat, set<Entry>>): Disk {
    d.(tables := d.tables + added, live := d.live - removed + added.Keys)
  }

  ghost predicate Enabled(mod: nat, db: Db, step: Step) {
    match step
    case Append(ops, sync) => db.Up? && db.m.inFlight.None? && !db.m.failed && db.m.logFile in db.disk.logs
    case SyncLog => db.Up? && db.m.inFlight.Some? && db.m.inFlight.value.sync && UsesLog(mod) && db.m.logFile in db.disk.logs
    case Ack =>
      && db.Up? && db.m.inFlight.Some?
      && (db.m.inFlight.value.sync && UsesLog(mod) ==>
            db.m.logFile in db.disk.logs && db.disk.logs[db.m.logFile].synced == |db.disk.logs[db.m.logFile].batches|)
    case Switch => db.Up? && db.m.inFlight.None? && db.m.imm.None? && !db.m.failed
    case WriteTable => db.Up? && db.m.imm.Some? && db.m.flush.Idle? && !db.m.failed && EntriesOf(db.m.imm.value) != {}
    case FlushFails => db.Up? && db.m.imm.Some? && db.m.flush.Idle? && EntriesOf(db.m.imm.value) == {}
    case PrepareEdit => db.Up? && db.m.flush.Written?
    case CommitEdit => db.Up? && db.m.flush.Editing? && db.m.imm.Some?
    case Install => db.Up? && db.m.flush.Durable?
    case Compact(removed, added, smallest, next) =>
      && db.Up? && db.m.flush.Idle? && removed <= db.disk.live && smallest <= db.m.lastSequence
      && db.m.nextFile <= next && (forall n :: n in added ==> n < next && n !in db.disk.tables)
      && Drops(Present(db.disk), Present(Compacted(db.disk, removed, added)), smallest)
    case DeleteLog(n) => db.Up? && db.m.flush.Idle? && n in db.disk.logs && n < db.m.logNumber
    case DeleteTable(n) => db.Up? && db.m.flush.Idle? && n in db.disk.tables && n !in db.disk.live
    case Kill => true
    case PowerLoss(kept) => KeepsSynced(db.disk.logs, kept)
    case Replay(edit, tables) => db.Down? && Replays(db.disk, edit, tables)
    case ReplayFails(tables) => db.Down? && forall n :: n in tables ==> n > db.disk.nextFile
    case FinishOpen => db.Opening?
  }

  function AppendTo(log: LogFile, b: Batch): LogFile {
    LogFile(log.batches + [b], log.synced)
  }

  ghost function Apply(mod: nat, db: Db, step: Step): Db
    requires Enabled(mod, db, step)
  {
    match step
    case Append(ops, sync) =>
      var b := Batch(db.m.lastSequence + 1, ops);
      var n := db.m.logFile;
      db.(disk := if UsesLog(mod) then db.disk.(logs := db.disk.logs[n := AppendTo(db.disk.logs[n], b)]) else db.disk,
          clients := db.clients.(submitted := db.clients.submitted + Entries(b)),
          m := db.m.(inFlight := Some(InFlight(b, sync))))
    case SyncLog =>
      var n := db.m.logFile;
      var batches := db.disk.logs[n].batches;
      db.(disk := db.disk.(logs := db.disk.logs[n := LogFile(batches, |batches|)]))
    case Ack =>
      var w := db.m.inFlight.value;
      var mem := db.m.mem + [w.batch];
      db.(clients := db.clients.(acked := db.clients.acked + Entries(w.batch),
                                 owed := if w.sync && UsesLog(mod) then db.clients.owed + EntriesOf(mem) else db.clients.owed),
          m := db.m.(mem := mem, inFlight := None, lastSequence := db.m.lastSequence + |w.batch.ops|))
    case Switch =>
      db.(disk := db.disk.(logs := db.disk.logs[db.m.nextFile := LogFile([], 0)]),
          m := db.m.(logFile := db.m.nextFile, nextFile := db.m.nextFile + 1, imm := Some(db.m.mem), mem := []))
    case WriteTable =>
      db.(disk := db.disk.(tables := db.disk.tables[db.m.nextFile := EntriesOf(db.m.imm.value)]),
          m := db.m.(nextFile := db.m.nextFile + 1, flush := Written(db.m.nextFile)))
    case FlushFails =>
      db.(m := db.m.(failed := true))
    case PrepareEdit =>
      var n := db.m.flush.number;
      db.(m := db.m.(flush := Editing(n, Edit(db.m.logFile, {n}, db.m.nextFile, db.m.lastSequence))))
    case CommitEdit =>
      var e := db.m.flush.edit;
      db.(disk := Commit(db.disk, e),
          clients := db.clients.(owed := db.clients.owed + EntriesOf(db.m.imm.value)),
          m := db.m.(flush := Durable(db.m.flush.number, e)))
    case Install =>
      db.(m := db.m.(imm := None, logNumber := db.m.flush.edit.logNumber, flush := Idle))
    case Compact(removed, added, smallest, next) =>
      var d := Compacted(db.disk, removed, added);
      db.(disk := d.(nextFile := next, lastSequence := db.m.lastSequence,
                     dropped := d.dropped + (Present(db.disk) - Present(d)),
                     horizon := if d.horizon < smallest then smallest else d.horizon),
          m := db.m.(nextFile := next))
    case DeleteLog(n) =>
      db.(disk := db.disk.(logs := db.disk.logs - {n}))
    case DeleteTable(n) =>
      db.(disk := db.disk.(tables := db.disk.tables - {n}))
    case Kill =>
      Down(db.disk, db.clients.(acked := if UsesLog(mod) then db.clients.acked else db.clients.owed))
    case PowerLoss(kept) =>
      Down(db.disk.(logs := Cut(db.disk.logs, kept)), db.clients.(acked := db.clients.owed))
    case Replay(edit, tables) =>
      Opening(db.disk.(tables := db.disk.tables + tables, logs := db.disk.logs[edit.logNumber := LogFile([], 0)]), db.clients, edit)
    case ReplayFails(tables) =>
      db.(disk := db.disk.(tables := db.disk.tables + tables))
    case FinishOpen =>
      var e := db.edit;
      Up(Commit(db.disk, e), db.clients,
         Memory([], None, None, e.logNumber, e.logNumber, e.nextFile, e.lastSequence, Idle, false))
  }

  function Commit(d: Disk, e: Edit): Disk {
    d.(logNumber := e.logNumber, live := d.live + e.added, nextFile := e.nextFile, lastSequence := e.lastSequence)
  }

  // ----- the invariant -----

  ghost predicate LogsOk(logs: map<nat, LogFile>) {
    forall n :: n in logs ==> logs[n].synced <= |logs[n].batches|
  }

  ghost predicate DiskOk(d: Disk) {
    && LogsOk(d.logs)
    && d.live <= d.tables.Keys
    && (forall n :: n in d.live ==> n < d.nextFile)
    && d.logNumber < d.nextFile && 0 !in d.logs
    && forall e :: e in LiveEntries(d) ==> e.ik.sn <= d.lastSequence
  }

  /** The promise to clients. */
  ghost predicate Kept(mod: nat, d: Disk, c: Clients) {
    && Recoverable(d) <= c.submitted
    && c.owed <= Secured(d)
    && (UsesLog(mod) ==> c.acked <= Recoverable(d))
  }

  function Pending(m: Memory): seq<Batch> {
    if m.inFlight.Some? then m.mem + [m.inFlight.value.batch] else m.mem
  }

  function Logged(mod: nat, bs: seq<Batch>): seq<Batch> {
    if UsesLog(mod) then bs else []
  }

  /** The current log holds the memtable, the log before it the immutable one; no other
      log is needed. */
  ghost predicate LogsMatch(mod: nat, d: Disk, m: Memory) {
    && m.logFile in d.logs && m.logFile < m.nextFile
    && d.logs[m.logFile].batches == Logged(mod, Pending(m))
    && (forall n :: n in d.logs ==> n < m.logNumber || n == m.logNumber || n == m.logFile)
    && (if m.imm.None? then m.logNumber == m.logFile
        else m.logNumber < m.logFile && m.logNumber in d.logs && d.logs[m.logNumber].batches == Logged(mod, m.imm.value))
  }

  ghost predicate FlushMatches(d: Disk, m: Memory) {
    && d.nextFile <= m.nextFile
    && d.logNumber == (if m.flush.Durable? then m.logFile else m.logNumber)
    && (!m.flush.Idle? ==>
          && m.imm.Some?
          && m.flush.number in d.tables && d.tables[m.flush.number] == EntriesOf(m.imm.value)
          && m.flush.number < m.nextFile && EntriesOf(m.imm.value) != {}
          && (!m.flush.Durable? ==> forall n :: n in d.live ==> n < m.flush.number))
    && (m.flush.Editing? ==>
          var e := m.flush.edit;
          && e.logNumber == m.logFile && e.added == {m.flush.number} && e.logNumber < e.nextFile
          && m.flush.number < e.nextFile <= m.nextFile && d.nextFile <= e.nextFile
          && d.lastSequence <= e.lastSequence <= m.lastSequence
          && forall x :: x in EntriesOf(m.imm.value) ==> x.ik.sn <= e.lastSequence)
    && (m.flush.Durable? ==> m.flush.number in d.live && m.flush.edit.logNumber == m.logFile)
  }

  ghost predicate SequencesOk(d: Disk, m: Memory) {
    && d.lastSequence <= m.lastSequence
    && (forall x :: x in EntriesOf(m.mem) ==> x.ik.sn <= m.lastSequence)
    && (m.imm.Some? ==> forall x :: x in EntriesOf(m.imm.value) ==> x.ik.sn <= m.lastSequence)
    && (m.inFlight.Some? ==> m.inFlight.value.batch.first == m.lastSequence + 1)
  }

  ghost predicate Layers(d: Disk, m: Memory) {
    && Ascending(m.mem) && (forall b :: b in m.mem ==> b.first + |b.ops| <= m.lastSequence + 1)
    && Older(LiveEntries(d), EntriesOf(m.mem))
    && (m.imm.Some? ==>
          && Ascending(m.imm.value) && Older(EntriesOf(m.imm.value), EntriesOf(m.mem))
          && Older(LiveEntries(d) - (if m.flush.Durable? then EntriesOf(m.imm.value) else {}), EntriesOf(m.imm.value)))
  }

  ghost predicate MemoryKnown(m: Memory, c: Clients) {
    && EntriesOf(Pending(m)) <= c.submitted
    && (m.imm.Some? ==> EntriesOf(m.imm.value) <= c.submitted)
  }

  ghost predicate OpeningOk(d: Disk, e: Edit) {
    && Aged(e.added, d.tables)
    && (set n, x | n in e.added && n in d.tables && x in d.tables[n] :: x) == LogEntries(d)
    && (forall n :: n in e.added ==> d.nextFile <= n < e.nextFile)
    && e.logNumber in d.logs && d.logs[e.logNumber] == LogFile([], 0)
    && (forall n :: n in d.logs ==> n <= e.logNumber)
    && d.logNumber < e.logNumber < e.nextFile && d.nextFile <= e.nextFile && d.lastSequence <= e.lastSequence
    && forall x :: x in LogEntries(d) ==> x.ik.sn <= e.lastSequence
  }

  ghost predicate Inv(mod: nat, db: Db) {
    && DiskOk(db.disk) && Kept(mod, db.disk, db.clients)
    && (!db.Up? ==> Older(LiveEntries(db.disk), LogEntries(db.disk)) && LogsOrdered(db.disk))
    && (db.Opening? ==> OpeningOk(db.disk, db.edit))
    && (db.Up? ==>
          && LogsMatch(mod, db.disk, db.m) && FlushMatches(db.disk, db.m)
          && SequencesOk(db.disk, db.m) && Layers(db.disk, db.m)
          && MemoryKnown(db.m, db.clients))
  }

  // ----- whole runs -----

  /** A new database: NewDB has written its manifest. */
  function Fresh(): Db {
    Down(Disk(0, {}, 2, 0, map[], map[], {}, 0), Clients({}, {}, {}))
  }

  ghost predicate Goes(mod: nat, db: Db, step: Step, db': Db) {
    Enabled(mod, db, step) && db' == Apply(mod, db, step)
  }

  ghost predicate Trace(mod: nat, dbs: seq<Db>, steps: seq<Step>) {
    |dbs| == |steps| + 1 && forall i :: 0 <= i < |steps| ==> Goes(mod, dbs[i], steps[i], dbs[i + 1])
  }

  ghost function InMemory(m: Memory): set<Entry> {
    (if m.imm.Some? then EntriesOf(m.imm.value) else {}) + EntriesOf(m.mem)
  }

  /** What an open database has been given. */
  ghost function View(db: Db): set<Entry>
    requires db.Up?
  {
    LiveEntries(db.disk) + InMemory(db.m)
  }

  /** What its readers have before them. */
  ghost function Actual(db: Db): set<Entry>
    requires db.Up?
  {
    Present(db.disk) + InMemory(db.m)
  }

  ghost function Underway(m: Memory): set<Entry> {
    if m.inFlight.Some? then Entries(m.inFlight.value.batch) else {}
  }
}
