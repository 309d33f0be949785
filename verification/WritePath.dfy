/** The writer queue on top of the disk: what group commit appends, syncs and acknowledges
    is what the crash machine logs, syncs and owes, with flushes, compactions and memtable
    switches going on beside it. These are the runs in which no append or sync fails. */
module WritePath {
  import opened InternalKeys
  import G = GroupCommit
  import D = Durability
  import R = DurabilityRuns

  function ToOp(o: G.Op): D.Op {
    if o.value.Some? then D.Op(TypeValue, o.user, o.value.value) else D.Op(TypeDeletion, o.user, "")
  }

  function ToOps(ops: seq<G.Op>): (r: seq<D.Op>)
    ensures |r| == |ops|
  {
    seq(|ops|, i requires 0 <= i < |ops| => ToOp(ops[i]))
  }

  function ToBatch(r: G.Record): D.Batch {
    D.Batch(r.first, ToOps(r.ops))
  }

  function ToBatches(log: seq<G.Record>): (r: seq<D.Batch>)
    ensures |r| == |log|
  {
    seq(|log|, i requires 0 <= i < |log| => ToBatch(log[i]))
  }

  /** Numbered operations as entries. */
  function EntryOf(a: (nat, G.Op)): Entry {
    Entry(IKey(a.1.user, a.0), ToOp(a.1).kind, ToOp(a.1).value)
  }

  function EntriesFor(a: seq<(nat, G.Op)>): set<Entry> {
    set i | 0 <= i < |a| :: EntryOf(a[i])
  }

  lemma NumberedEntries(first: nat, ops: seq<G.Op>)
    ensures EntriesFor(G.Number(first, ops)) == D.Entries(ToBatch(G.Record(first, ops)))
  {
    var a, b := G.Number(first, ops), ToBatch(G.Record(first, ops));
    assert forall i: nat :: i < |ops| ==> EntryOf(a[i]) == D.EntryAt(b, i);
    forall e | e in D.Entries(b) ensures e in EntriesFor(a) {
      var i: nat :| i < |b.ops| && e == D.EntryAt(b, i);
      assert e == EntryOf(a[i]);
    }
  }

  lemma EntriesForConcat(a: seq<(nat, G.Op)>, b: seq<(nat, G.Op)>)
    ensures EntriesFor(a + b) == EntriesFor(a) + EntriesFor(b)
  {
    var c := a + b;
    forall e | e in EntriesFor(b) ensures e in EntriesFor(c) {
      var i :| 0 <= i < |b| && e == EntryOf(b[i]);
      assert c[|a| + i] == b[i];
    }
    forall e | e in EntriesFor(a) ensures e in EntriesFor(c) {
      var i :| 0 <= i < |a| && e == EntryOf(a[i]);
      assert c[i] == a[i];
    }
  }

  /** What acknowledged groups whose leader syncs have applied. */
  function SyncedOps(cs: seq<G.Commit>): seq<(nat, G.Op)> {
    if cs == [] then []
    else
      var c := cs[|cs| - 1];
      SyncedOps(cs[..|cs| - 1]) + if c.ok && c.writers != [] && c.writers[0].sync then G.Number(c.first, G.AllOps(c.writers)) else []
  }

  // ----- the joint machine -----

  /** The queue, the disk, and how many log records are in logs before the current one. */
  datatype Joint = Joint(s: G.State, db: D.Db, from: nat)

  datatype Step = Group(g: G.Step) | Disk(x: D.Step)

  predicate Fails(g: G.Step) {
    g.Fail? || (g.Append? && !g.ok) || (g.Sync? && !g.ok)
  }

  /** The steps of the disk that the writer at the front takes. */
  predicate Writes(x: D.Step) {
    x.Append? || x.SyncLog? || x.Ack?
  }

  ghost predicate Enabled(mod: nat, j: Joint, step: Step) {
    match step
    case Group(g) => G.Enabled(j.s, g) && !Fails(g) && j.db.Up? && (g.Append? ==> !j.db.m.failed)
    case Disk(x) => D.Enabled(mod, j.db, x) && j.db.Up? && !Writes(x) && !R.Crash(x) && (x.Switch? ==> j.s.phase.Idle?)
  }

  /** What a step of the queue is to the disk. */
  function DiskPart(s: G.State, g: G.Step): D.Option<D.Step> {
    match g
    case Append(_) => if s.queue == [] then D.None else D.Some(D.Append(ToOps(G.Group(s)), s.queue[0].sync))
    case Sync(_) => D.Some(D.SyncLog)
    case End => D.Some(D.Ack)
    case _ => D.None
  }

  ghost predicate Goes(mod: nat, j: Joint, step: Step, j': Joint) {
    && Enabled(mod, j, step)
    && match step
       case Group(g) =>
         && (j.s.phase.Idle? || j.s.phase.n <= |j.s.queue|)
         && j'.s == G.Apply(j.s, g) && j'.from == j.from
         && (match DiskPart(j.s, g) case None => j'.db == j.db case Some(x) => D.Goes(mod, j.db, x, j'.db))
       case Disk(x) =>
         D.Goes(mod, j.db, x, j'.db) && j'.s == j.s && j'.from == if x.Switch? then |j.s.log| else j.from
  }

  // ----- the invariant -----

  /** The record under way, if one has been appended, is the write in flight. */
  ghost predicate Same(s: G.State, m: D.Memory, from: nat) {
    && from <= |s.log| && m.lastSequence == s.lastSequence
    && if G.InLog(s.phase) then
         && from < |s.log| && s.queue != []
         && m.inFlight == D.Some(D.InFlight(ToBatch(s.log[|s.log| - 1]), s.queue[0].sync))
         && m.mem == ToBatches(s.log[from..|s.log| - 1])
       else m.inFlight.None? && m.mem == ToBatches(s.log[from..])
  }

  ghost predicate SyncedSame(s: G.State, db: D.Db)
    requires db.Up?
  {
    s.phase.Synced? || (s.phase.Inserted? && s.queue != [] && s.queue[0].sync) ==>
      db.m.logFile in db.disk.logs && db.disk.logs[db.m.logFile].synced == |db.disk.logs[db.m.logFile].batches|
  }

  ghost predicate Known(s: G.State, c: D.Clients) {
    && EntriesFor(G.Applied(s.commits)) <= c.acked
    && EntriesFor(SyncedOps(s.commits)) <= c.owed
  }

  /** The queue and the open database tell the same story. */
  ghost predicate Agree(s: G.State, db: D.Db, from: nat) {
    db.Up? && Same(s, db.m, from) && SyncedSame(s, db) && Known(s, db.clients)
  }

  ghost predicate Inv(mod: nat, j: Joint) {
    D.UsesLog(mod) && G.Inv(j.s) && !j.s.phase.Failed? && D.Inv(mod, j.db) && Agree(j.s, j.db, j.from)
  }

  // ----- every step keeps it -----

  lemma LastRecord(log: seq<G.Record>, r: G.Record, from: nat)
    requires from <= |log|
    ensures (log + [r])[from..|log|] == log[from..] && (log + [r])[|log|] == r
  {
  }

  lemma DiskAppend(mod: nat, db: D.Db, ops: seq<D.Op>, sync: bool, db': D.Db)
    requires D.Goes(mod, db, D.Append(ops, sync), db')
    ensures db'.Up? && db'.m == db.m.(inFlight := D.Some(D.InFlight(D.Batch(db.m.lastSequence + 1, ops), sync)))
    ensures db'.clients.acked == db.clients.acked && db'.clients.owed == db.clients.owed
  {
  }

  lemma AppendSame(s: G.State, db: D.Db, from: nat, s': G.State, db': D.Db)
    requires Agree(s, db, from) && s.phase.Writing? && s.phase.first == s.lastSequence + 1 && s.queue != []
    requires s' == s.(phase := G.Appended(s.phase.n, s.phase.first), log := s.log + [G.Record(s.phase.first, G.Group(s))])
    requires db'.Up? && db'.clients.acked == db.clients.acked && db'.clients.owed == db.clients.owed
    requires db'.m == db.m.(inFlight := D.Some(D.InFlight(D.Batch(db.m.lastSequence + 1, ToOps(G.Group(s))), s.queue[0].sync)))
    ensures Agree(s', db', from)
  {
    LastRecord(s.log, G.Record(s.phase.first, G.Group(s)), from);
  }

  lemma AppendKeeps(mod: nat, j: Joint, j': Joint)
    requires G.QueueOk(j.s) && Agree(j.s, j.db, j.from) && Goes(mod, j, Group(G.Append(true)), j')
    ensures Agree(j'.s, j'.db, j'.from)
  {
    AppendParts(mod, j, j');
    AppendBoth(mod, j.s, j.db, j.from, j'.s, j'.db);
  }

  lemma AppendBoth(mod: nat, s: G.State, db: D.Db, from: nat, s': G.State, db': D.Db)
    requires Agree(s, db, from) && s.phase.Writing? && s.phase.first == s.lastSequence + 1 && s.queue != []
    requires s' == s.(phase := G.Appended(s.phase.n, s.phase.first), log := s.log + [G.Record(s.phase.first, G.Group(s))])
    requires D.Goes(mod, db, D.Append(ToOps(G.Group(s)), s.queue[0].sync), db')
    ensures Agree(s', db', from)
  {
    DiskAppend(mod, db, ToOps(G.Group(s)), s.queue[0].sync, db');
    AppendSame(s, db, from, s', db');
  }

  lemma AppendParts(mod: nat, j: Joint, j': Joint)
    requires G.QueueOk(j.s) && Goes(mod, j, Group(G.Append(true)), j')
    ensures j.s.phase.Writing? && j.s.phase.first == j.s.lastSequence + 1 && j.s.queue != [] && j'.from == j.from
    ensures j'.s == j.s.(phase := G.Appended(j.s.phase.n, j.s.phase.first), log := j.s.log + [G.Record(j.s.phase.first, G.Group(j.s))])
    ensures D.Goes(mod, j.db, D.Append(ToOps(G.Group(j.s)), j.s.queue[0].sync), j'.db)
  {
  }

  lemma DiskSync(mod: nat, db: D.Db, db': D.Db)
    requires D.Goes(mod, db, D.SyncLog, db')
    ensures db'.Up? && db'.m == db.m && db'.clients == db.clients && db.m.logFile in db'.disk.logs
    ensures db'.disk.logs[db.m.logFile].synced == |db'.disk.logs[db.m.logFile].batches|
  {
  }

  lemma SyncSame(s: G.State, db: D.Db, from: nat, s': G.State, db': D.Db)
    requires Agree(s, db, from) && s.phase.Appended?
    requires s' == s.(phase := G.Synced(s.phase.n, s.phase.first), synced := |s.log|)
    requires db'.Up? && db'.m == db.m && db'.clients == db.clients && db.m.logFile in db'.disk.logs
    requires db'.disk.logs[db.m.logFile].synced == |db'.disk.logs[db.m.logFile].batches|
    ensures Agree(s', db', from)
  {
  }

  lemma SyncKeeps(mod: nat, j: Joint, j': Joint)
    requires Inv(mod, j) && Goes(mod, j, Group(G.Sync(true)), j')
    ensures Agree(j'.s, j'.db, j'.from)
  {
    DiskSync(mod, j.db, j'.db);
    SyncSame(j.s, j.db, j.from, j'.s, j'.db);
  }

  lemma AllBatches(log: seq<G.Record>, from: nat)
    requires from < |log|
    ensures ToBatches(log[from..]) == ToBatches(log[from..|log| - 1]) + [ToBatch(log[|log| - 1])]
  {
  }

  /** The group under way is the last record of the log. */
  lemma LastIsGroup(s: G.State)
    requires G.Inv(s) && s.phase.Inserted?
    ensures s.log != [] && s.log[|s.log| - 1] == G.Record(s.phase.first, G.Group(s))
    ensures G.Whole(s).writers != [] && G.AllOps(G.Whole(s).writers) == G.Group(s) && G.Whole(s).writers[0] == s.queue[0]
  {
    G.FirstOnly(s.queue, s.queue[..s.phase.n], s.phase.n);
  }

  lemma EndKnown(s: G.State, c: D.Clients, c': D.Clients, b: D.Batch)
    requires G.Inv(s) && s.phase.Inserted? && Known(s, c) && b == ToBatch(s.log[|s.log| - 1])
    requires c.acked + D.Entries(b) <= c'.acked && c.owed <= c'.owed
    requires s.queue != [] && s.queue[0].sync ==> D.Entries(b) <= c'.owed
    ensures Known(G.Popped(s, G.Whole(s), s.phase.n), c')
  {
    var w, cs := G.Whole(s), s.commits;
    LastIsGroup(s);
    assert (cs + [w])[..|cs|] == cs;
    var more := G.Number(w.first, G.AllOps(w.writers));
    NumberedEntries(w.first, G.AllOps(w.writers));
    EntriesForConcat(G.Applied(cs), more);
    EntriesForConcat(SyncedOps(cs), more);
    assert SyncedOps(cs) + [] == SyncedOps(cs);
  }

  lemma DiskAck(mod: nat, db: D.Db, db': D.Db)
    requires D.Goes(mod, db, D.Ack, db') && D.UsesLog(mod)
    ensures var w := db.m.inFlight.value;
            && db'.Up? && db'.clients.acked == db.clients.acked + D.Entries(w.batch)
            && db.clients.owed <= db'.clients.owed && (w.sync ==> D.Entries(w.batch) <= db'.clients.owed)
            && db'.m == db.m.(mem := db.m.mem + [w.batch], inFlight := D.None, lastSequence := db.m.lastSequence + |w.batch.ops|)
  {
    R.EntriesConcat(db.m.mem, [db.m.inFlight.value.batch]);
    R.EntriesOne(db.m.inFlight.value.batch);
  }

  lemma EndSame(s: G.State, m: D.Memory, from: nat, m': D.Memory)
    requires G.Inv(s) && s.phase.Inserted? && Same(s, m, from) && m.inFlight.Some?
    requires var b := m.inFlight.value.batch;
             m' == m.(mem := m.mem + [b], inFlight := D.None, lastSequence := m.lastSequence + |b.ops|)
    ensures Same(G.Popped(s, G.Whole(s), s.phase.n), m', from)
  {
    LastIsGroup(s);
    AllBatches(s.log, from);
  }

  lemma EndKeeps(mod: nat, j: Joint, j': Joint)
    requires Inv(mod, j) && Goes(mod, j, Group(G.End), j')
    ensures Agree(j'.s, j'.db, j'.from)
  {
    DiskAck(mod, j.db, j'.db);
    EndSame(j.s, j.db.m, j.from, j'.db.m);
    EndKnown(j.s, j.db.clients, j'.db.clients, j.db.m.inFlight.value.batch);
  }

  lemma LoneKnown(s: G.State, c: D.Clients)
    requires G.Inv(s) && s.phase.Idle? && s.queue != [] && s.queue[0].batch.None? && Known(s, c)
    ensures Known(G.Popped(s, G.Lone(s, true), 1), c)
  {
    var w, cs := G.Lone(s, true), s.commits;
    G.LoneWriter(s.queue);
    assert (cs + [w])[..|cs|] == cs;
    assert G.Number(w.first, []) == [] && G.Applied(cs) + [] == G.Applied(cs) && SyncedOps(cs) + [] == SyncedOps(cs);
  }

  lemma QuietKeeps(mod: nat, j: Joint, g: G.Step, j': Joint)
    requires Inv(mod, j) && Goes(mod, j, Group(g), j') && DiskPart(j.s, g).None?
    ensures Agree(j'.s, j'.db, j'.from)
  {
    QuietStep(j.s, j.db, j.from, g);
  }

  lemma QuietStep(s: G.State, db: D.Db, from: nat, g: G.Step)
    requires G.Inv(s) && Agree(s, db, from) && G.Enabled(s, g) && !Fails(g) && DiskPart(s, g).None?
    ensures Agree(G.Apply(s, g), db, from)
  {
    if g.SwitchOnly? {
      LoneKnown(s, db.clients);
    } else {
      QuietSame(s, db, from, G.Apply(s, g));
    }
  }

  /** A writer joins the queue, a group begins, a group is in the memtable. */
  lemma QuietSame(s: G.State, db: D.Db, from: nat, s': G.State)
    requires Agree(s, db, from) && s'.log == s.log && s'.lastSequence == s.lastSequence && s'.commits == s.commits
    requires G.InLog(s'.phase) == G.InLog(s.phase) && (s.queue != [] ==> s'.queue != [] && s'.queue[0] == s.queue[0])
    requires s'.phase.Synced? ==> s.phase.Synced?
    requires s'.phase.Inserted? && s'.queue != [] && s'.queue[0].sync ==>
               s.phase.Synced? || (s.phase.Inserted? && s.queue != [] && s.queue[0].sync)
    ensures Agree(s', db, from)
  {
  }

  /** What goes on beside the writers does not touch what they rely on. */
  lemma Background(mod: nat, db: D.Db, x: D.Step, db': D.Db)
    requires D.Inv(mod, db) && db.Up? && D.Goes(mod, db, x, db') && !Writes(x) && !R.Crash(x) && !x.Switch?
    ensures db'.Up? && db'.m.mem == db.m.mem && db'.m.inFlight == db.m.inFlight
    ensures db'.m.lastSequence == db.m.lastSequence && db'.m.logFile == db.m.logFile
    ensures db.m.logFile in db.disk.logs && db.m.logFile in db'.disk.logs
    ensures db'.disk.logs[db.m.logFile] == db.disk.logs[db.m.logFile]
    ensures db'.clients.acked == db.clients.acked && db.clients.owed <= db'.clients.owed
  {
  }

  lemma DiskSame(mod: nat, j: Joint, x: D.Step, j': Joint)
    requires Inv(mod, j) && Goes(mod, j, Disk(x), j')
    ensures Agree(j'.s, j'.db, j'.from)
  {
    if x.Switch? {
      assert j.s.log[|j.s.log|..] == [];
    } else {
      Background(mod, j.db, x, j'.db);
    }
  }

  lemma StepKeeps(mod: nat, j: Joint, step: Step, j': Joint)
    requires Inv(mod, j) && Goes(mod, j, step, j')
    ensures Inv(mod, j')
  {
    match step
    case Disk(x) =>
      R.StepKeeps(mod, j.db, x);
      DiskSame(mod, j, x, j');
    case Group(g) =>
      GroupKeeps(mod, j, g, j');
  }

  lemma GroupKeeps(mod: nat, j: Joint, g: G.Step, j': Joint)
    requires Inv(mod, j) && Goes(mod, j, Group(g), j')
    ensures Inv(mod, j')
  {
    G.StepKeeps(j.s, g);
    if DiskPart(j.s, g).Some? { R.StepKeeps(mod, j.db, DiskPart(j.s, g).value); }
    match g
    case Append(_) => AppendKeeps(mod, j, j');
    case Sync(_) => SyncKeeps(mod, j, j');
    case End => EndKeeps(mod, j, j');
    case _ => QuietKeeps(mod, j, g, j');
  }

  /** The disk never holds up a writer: whatever the queue can do without failing, the disk
      can do its part of. */
  lemma NeverStuck(mod: nat, j: Joint, g: G.Step) returns (j': Joint)
    requires Inv(mod, j) && Enabled(mod, j, Group(g))
    ensures Goes(mod, j, Group(g), j')
  {
    match DiskPart(j.s, g)
    case None => j' := Joint(G.Apply(j.s, g), j.db, j.from);
    case Some(x) =>
      DiskAllows(mod, j, g, x);
      j' := Joint(G.Apply(j.s, g), D.Apply(mod, j.db, x), j.from);
  }

  lemma DiskAllows(mod: nat, j: Joint, g: G.Step, x: D.Step)
    requires Inv(mod, j) && Enabled(mod, j, Group(g)) && DiskPart(j.s, g) == D.Some(x)
    ensures D.Enabled(mod, j.db, x)
  {
  }

  // ----- runs -----

  ghost predicate Run(mod: nat, js: seq<Joint>, steps: seq<Step>) {
    && |js| == |steps| + 1 && js[0] == Joint(G.START, R.OPENED, 0)
    && forall i :: 0 <= i < |steps| ==> Goes(mod, js[i], steps[i], js[i + 1])
  }

  lemma StartOk(mod: nat)
    requires D.UsesLog(mod)
    ensures Inv(mod, Joint(G.START, R.OPENED, 0))
  {
    R.OpenedOk(mod);
    QueueStart();
    var none: seq<G.Record> := [];
    assert none[0..] == [] && ToBatches(none) == [];
  }

  lemma QueueStart()
    ensures G.Inv(G.START)
  {
  }

  lemma {:induction false} RunsAgree(mod: nat, js: seq<Joint>, steps: seq<Step>, i: nat)
    requires D.UsesLog(mod) && Run(mod, js, steps) && i < |js|
    ensures Inv(mod, js[i])
  {
    if i == 0 {
      StartOk(mod);
    } else {
      RunsAgree(mod, js, steps, i - 1);
      StepKeeps(mod, js[i - 1], steps[i - 1], js[i]);
    }
  }

  /** The entry an operation becomes under its number. */
  ghost predicate Becomes(n: nat, o: G.Op, e: Entry) {
    && e.ik == IKey(o.user, n)
    && (if o.value.Some? then e.kind == TypeValue && e.value == o.value.value else e.kind == TypeDeletion)
  }

  /** Every operation of the group is there, under its number. */
  ghost predicate HasGroup(S: set<Entry>, c: G.Commit) {
    forall i :: 0 <= i < |G.AllOps(c.writers)| ==> HasOp(S, c.first + i, G.AllOps(c.writers)[i])
  }

  ghost predicate HasOp(S: set<Entry>, n: nat, o: G.Op) {
    exists e :: e in S && Becomes(n, o, e)
  }

  lemma GroupThere(S: set<Entry>, c: G.Commit)
    requires EntriesFor(G.Number(c.first, G.AllOps(c.writers))) <= S
    ensures HasGroup(S, c)
  {
    var ops := G.AllOps(c.writers);
    var a := G.Number(c.first, ops);
    forall i | 0 <= i < |ops| ensures HasOp(S, c.first + i, ops[i]) {
      var e := EntryOf(a[i]);
      assert e in EntriesFor(a) && Becomes(c.first + i, ops[i], e);
    }
  }

  /** Each acknowledged group is among what was applied, and what was synced if its leader
      asked for that. */
  lemma {:induction false} GroupIsApplied(cs: seq<G.Commit>, k: nat)
    requires k < |cs| && cs[k].ok
    ensures EntriesFor(G.Number(cs[k].first, G.AllOps(cs[k].writers))) <= EntriesFor(G.Applied(cs))
    ensures cs[k].writers != [] && cs[k].writers[0].sync ==>
              EntriesFor(G.Number(cs[k].first, G.AllOps(cs[k].writers))) <= EntriesFor(SyncedOps(cs))
    decreases |cs|
  {
    var before, c := cs[..|cs| - 1], cs[|cs| - 1];
    var mine := G.Number(c.first, G.AllOps(c.writers));
    EntriesForConcat(G.Applied(before), if c.ok then mine else []);
    EntriesForConcat(SyncedOps(before), if c.ok && c.writers != [] && c.writers[0].sync then mine else []);
    if k < |cs| - 1 { GroupIsApplied(before, k); }
  }

  /** The group was acknowledged, and its leader asked for a sync unless all count. */
  predicate Promised(c: G.Commit, all: bool) {
    c.ok && (all || (c.writers != [] && c.writers[0].sync))
  }

  lemma GroupsThere(cs: seq<G.Commit>, S: set<Entry>, all: bool)
    requires (all ==> EntriesFor(G.Applied(cs)) <= S) && EntriesFor(SyncedOps(cs)) <= S
    ensures forall k :: 0 <= k < |cs| && Promised(cs[k], all) ==> HasGroup(S, cs[k])
  {
    forall k | 0 <= k < |cs| && Promised(cs[k], all) ensures HasGroup(S, cs[k]) {
      GroupIsApplied(cs, k);
      GroupThere(S, cs[k]);
    }
  }

  /** At every moment of every such run: a crash now, and a recovery that succeeds, bring
      back every operation of every writer that was told its write is done, under the
      number it was given; after a power loss those whose leader synced. */
  lemma AcknowledgedSurvive(mod: nat, j: Joint, crash: D.Step, edit: D.Edit, tables: map<nat, set<Entry>>)
    requires Inv(mod, j) && R.Crash(crash) && D.Enabled(mod, j.db, crash)
    requires D.Enabled(mod, D.Apply(mod, j.db, crash), D.Replay(edit, tables))
    ensures var opening := D.Apply(mod, D.Apply(mod, j.db, crash), D.Replay(edit, tables));
            var up := D.Apply(mod, opening, D.FinishOpen);
            && (crash.Kill? ==> EntriesFor(G.Applied(j.s.commits)) <= D.View(up))
            && EntriesFor(SyncedOps(j.s.commits)) <= D.View(up)
            && forall k :: 0 <= k < |j.s.commits| && Promised(j.s.commits[k], crash.Kill?) ==> HasGroup(D.View(up), j.s.commits[k])
    ensures G.Operations(G.Applied(j.s.commits)) == G.AllOps(G.Acknowledged(j.s.commits))
  {
    R.CrashRecovery(mod, j.db, crash, edit, tables);
    G.AcknowledgedOnce(j.s.commits, j.s.lastSequence);
    var opening := D.Apply(mod, D.Apply(mod, j.db, crash), D.Replay(edit, tables));
    GroupsThere(j.s.commits, D.View(D.Apply(mod, opening, D.FinishOpen)), crash.Kill?);
  }
}
