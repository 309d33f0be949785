/** Group commit (db/db_impl.cc, Write and BuildBatchGroup): writers queue up, the one at
    the front commits for a run of those behind it. */
module GroupCommit {

  datatype Option<T> = None | Some(value: T)

  /** One operation of a batch; `bytes` is the size of its encoding. */
  datatype Op = Op(user: int, value: Option<string>, bytes: nat)

  /** A queued writer. A batch of None asks for a memtable switch only. */
  datatype Writer = Writer(id: nat, batch: Option<seq<Op>>, sync: bool)

  const HEADER: nat := 12

  /** The bytes of the first n operations. */
  function BytesTo(ops: seq<Op>, n: nat): nat
    requires n <= |ops|
  {
    if n == 0 then 0 else BytesTo(ops, n - 1) + ops[n - 1].bytes
  }

  function Bytes(ops: seq<Op>): nat {
    BytesTo(ops, |ops|)
  }

  function ByteSize(ops: seq<Op>): nat {
    HEADER + Bytes(ops)
  }

  function SizeOf(w: Writer): nat {
    if w.batch.None? then 0 else ByteSize(w.batch.value)
  }

  /** The size of the first n batches. */
  function TotalSize(ws: seq<Writer>, n: nat): nat
    requires n <= |ws|
  {
    if n == 0 then 0 else TotalSize(ws, n - 1) + SizeOf(ws[n - 1])
  }

  function OpsOf(w: Writer): seq<Op> {
    if w.batch.None? then [] else w.batch.value
  }

  /** The operations of the first n batches, in order. */
  function OpsTo(ws: seq<Writer>, n: nat): seq<Op>
    requires n <= |ws|
  {
    if n == 0 then [] else OpsTo(ws, n - 1) + OpsOf(ws[n - 1])
  }

  function AllOps(ws: seq<Writer>): seq<Op> {
    OpsTo(ws, |ws|)
  }

  /** They depend on those writers only. */
  lemma {:induction false} FirstOnly(ws: seq<Writer>, vs: seq<Writer>, n: nat)
    requires n <= |ws| && n <= |vs| && forall i :: 0 <= i < n ==> ws[i] == vs[i]
    ensures OpsTo(ws, n) == OpsTo(vs, n) && TotalSize(ws, n) == TotalSize(vs, n)
  {
    if n > 0 { FirstOnly(ws, vs, n - 1); }
  }

  /** How many of the first n writers have a batch. */
  function Batches(ws: seq<Writer>, n: nat): nat
    requires n <= |ws|
  {
    if n == 0 then 0 else Batches(ws, n - 1) + if ws[n - 1].batch.Some? then 1 else 0
  }

  lemma {:induction false} BytesPrefix(a: seq<Op>, b: seq<Op>, n: nat)
    requires n <= |a|
    ensures BytesTo(a + b, n) == BytesTo(a, n)
  {
    if n > 0 { BytesPrefix(a, b, n - 1); }
  }

  lemma {:induction false} BytesConcat(a: seq<Op>, b: seq<Op>, n: nat)
    requires n <= |b|
    ensures BytesTo(a + b, |a| + n) == Bytes(a) + BytesTo(b, n)
  {
    if n == 0 {
      BytesPrefix(a, b, |a|);
    } else {
      BytesConcat(a, b, n - 1);
      assert (a + b)[|a| + n - 1] == b[n - 1];
    }
  }

  lemma OneBatchMore(ops: seq<Op>, w: Writer, total: nat, batches: nat)
    requires total == Bytes(ops) + 12 * batches
    ensures total + SizeOf(w) == Bytes(ops + OpsOf(w)) + 12 * if w.batch.Some? then batches + 1 else batches
  {
    BytesConcat(ops, OpsOf(w), |OpsOf(w)|);
    var mine := Bytes(OpsOf(w));
    assert SizeOf(w) == mine + if w.batch.Some? then 12 else 0;
  }

  /** The size a group is measured by counts the twelve bytes of header of each batch, of
      which the combined batch has one. */
  lemma {:induction false} CombinedSize(ws: seq<Writer>, n: nat)
    requires n <= |ws|
    ensures TotalSize(ws, n) == Bytes(OpsTo(ws, n)) + 12 * Batches(ws, n)
  {
    if n > 0 {
      CombinedSize(ws, n - 1);
      OneBatchMore(OpsTo(ws, n - 1), ws[n - 1], TotalSize(ws, n - 1), Batches(ws, n - 1));
    }
  }

  /** A small first write must not wait for much more than itself. */
  function MaxSize(first: Writer): nat {
    if SizeOf(first) <= 0x2_0000 then SizeOf(first) + 0x2_0000 else 0x10_0000
  }

  /** The writer at position i may join the group of the first one. */
  predicate Admissible(ws: seq<Writer>, i: nat)
    requires 0 < i < |ws|
  {
    && !(ws[i].sync && !ws[0].sync)
    && (ws[i].batch.Some? ==> TotalSize(ws, i + 1) <= MaxSize(ws[0]))
  }

  /** The first n writers are the group: all may join, and the next one may not. */
  ghost predicate IsGroup(ws: seq<Writer>, n: nat) {
    && 1 <= n <= |ws|
    && (forall i :: 0 < i < n ==> Admissible(ws, i))
    && (n < |ws| ==> !Admissible(ws, n))
  }

  /** The group and its combined batch. */
  method BuildBatchGroup(ws: seq<Writer>) returns (n: nat, ops: seq<Op>)
    requires ws != [] && ws[0].batch.Some?
    ensures IsGroup(ws, n)
    ensures forall i :: 0 < i < n && ws[i].batch.Some? ==> Fits(TotalSize(ws, i + 1), SizeOf(ws[0]))
    ensures n < |ws| ==> (ws[n].sync && !ws[0].sync) || (ws[n].batch.Some? && !Fits(TotalSize(ws, n + 1), SizeOf(ws[0])))
    ensures ops == AllOps(ws[..n])
  {
    var first := ws[0];
    var size := ByteSize(first.batch.value);
    var maxSize := 0x10_0000;
    if size <= 0x2_0000 { maxSize := size + 0x2_0000; }
    ops, n := first.batch.value, 1;
    while n < |ws|
      invariant 1 <= n <= |ws|
      invariant size == TotalSize(ws, n) && ops == OpsTo(ws, n) && maxSize == MaxSize(first)
      invariant forall i :: 0 < i < n ==> Admissible(ws, i)
    {
      var joins, size', ops' := TryJoin(first, ws[n], size, maxSize, ops);
      assert joins <==> Admissible(ws, n);
      if !joins { break; }
      size, ops, n := size', ops', n + 1;
    }
    FirstOnly(ws, ws[..n], n);
    GroupIs(ws, n);
  }

  lemma GroupIs(ws: seq<Writer>, n: nat)
    requires IsGroup(ws, n)
    ensures forall i :: 0 < i < n && ws[i].batch.Some? ==> Fits(TotalSize(ws, i + 1), SizeOf(ws[0]))
    ensures n < |ws| ==> (ws[n].sync && !ws[0].sync) || (ws[n].batch.Some? && !Fits(TotalSize(ws, n + 1), SizeOf(ws[0])))
  {
    forall i | 0 < i < n && ws[i].batch.Some? ensures Fits(TotalSize(ws, i + 1), SizeOf(ws[0])) {
      assert Admissible(ws, i);
      FitsIsMax(ws[0], TotalSize(ws, i + 1));
    }
    if n < |ws| { FitsIsMax(ws[0], TotalSize(ws, n + 1)); }
  }

  /** One turn of the loop over the writers behind the first. */
  method TryJoin(first: Writer, w: Writer, size: nat, maxSize: nat, ops: seq<Op>) returns (joins: bool, size': nat, ops': seq<Op>)
    ensures joins <==> !(w.sync && !first.sync) && (w.batch.Some? ==> size + SizeOf(w) <= maxSize)
    ensures joins ==> size' == size + SizeOf(w) && ops' == ops + OpsOf(w)
  {
    joins, size', ops' := false, size, ops;
    if w.sync && !first.sync { return; }
    if w.batch.Some? {
      size' := size' + ByteSize(w.batch.value);
      if size' > maxSize { return; }
      ops' := ops' + w.batch.value;
    }
    joins := true;
  }

  // ----- the protocol -----

  /** How far the writer at the front has come with its group of n; from Writing to the
      end the mutex is released. */
  datatype Phase =
    | Idle
    | Writing(n: nat, first: nat)                 // numbered, nothing written yet
    | Appended(n: nat, first: nat)                // in the log
    | Synced(n: nat, first: nat)                  // and on disk
    | Inserted(n: nat, first: nat)                // and in the memtable
    | Failed(n: nat, first: nat, logged: bool)    // the append or the sync went wrong

  datatype Record = Record(first: nat, ops: seq<Op>)

  /** A group that has been dealt with: the sequence numbers it was given, whether its
      record is in the log, and what its writers were told. */
  datatype Commit = Commit(first: nat, used: nat, writers: seq<Writer>, logged: bool, ok: bool)

  datatype State = State(queue: seq<Writer>, phase: Phase, lastSequence: nat,
                         log: seq<Record>, synced: nat, mem: seq<(nat, Op)>,
                         commits: seq<Commit>, arrived: seq<Writer>)

  datatype Step =
    | Enqueue(w: Writer)
    | Fail                 // no room could be made for the front writer
    | SwitchOnly           // the front writer has no batch
    | Begin(n: nat)        // the front writer takes the first n
    | Append(ok: bool)
    | Sync(ok: bool)       // only when the front writer asked for it
    | Insert
    | End

  ghost predicate Enabled(s: State, step: Step) {
    match step
    case Enqueue(_) => true
    case Fail => s.phase.Idle? && s.queue != []
    case SwitchOnly => s.phase.Idle? && s.queue != [] && s.queue[0].batch.None?
    case Begin(n) => s.phase.Idle? && s.queue != [] && s.queue[0].batch.Some? && IsGroup(s.queue, n)
    case Append(_) => s.phase.Writing?
    case Sync(_) => s.phase.Appended? && s.queue != [] && s.queue[0].sync
    case Insert => s.phase.Synced? || (s.phase.Appended? && s.queue != [] && !s.queue[0].sync)
    case End => s.phase.Inserted? || s.phase.Failed?
  }

  /** The operations of the group under way. */
  function Group(s: State): seq<Op> {
    if s.phase.Idle? || s.phase.n > |s.queue| then [] else OpsTo(s.queue, s.phase.n)
  }

  /** The first n writers leave the queue as commit c. */
  function Popped(s: State, c: Commit, n: nat): State
    requires n <= |s.queue|
  {
    s.(queue := s.queue[n..], phase := Idle, lastSequence := s.lastSequence + c.used, commits := s.commits + [c])
  }

  function Lone(s: State, ok: bool): Commit
    requires s.queue != []
  {
    Commit(s.lastSequence + 1, 0, s.queue[..1], false, ok)
  }

  function Whole(s: State): Commit
    requires (s.phase.Inserted? || s.phase.Failed?) && s.phase.n <= |s.queue|
  {
    Commit(s.phase.first, |Group(s)|, s.queue[..s.phase.n], s.phase.Inserted? || s.phase.logged, s.phase.Inserted?)
  }

  ghost function Apply(s: State, step: Step): State
    requires Enabled(s, step) && (s.phase.Idle? || s.phase.n <= |s.queue|)
  {
    match step
    case Enqueue(w) => s.(queue := s.queue + [w], arrived := s.arrived + [w])
    case Fail => Popped(s, Lone(s, false), 1)
    case SwitchOnly => Popped(s, Lone(s, true), 1)
    case Begin(n) => s.(phase := Writing(n, s.lastSequence + 1))
    case Append(ok) =>
      if ok then s.(phase := Appended(s.phase.n, s.phase.first), log := s.log + [Record(s.phase.first, Group(s))])
      else s.(phase := Failed(s.phase.n, s.phase.first, false))
    case Sync(ok) =>
      if ok then s.(phase := Synced(s.phase.n, s.phase.first), synced := |s.log|)
      else s.(phase := Failed(s.phase.n, s.phase.first, true))
    case Insert => s.(phase := Inserted(s.phase.n, s.phase.first), mem := s.mem + Number(s.phase.first, Group(s)))
    case End => Popped(s, Whole(s), s.phase.n)
  }

  const START: State := State([], Idle, 0, [], 0, [], [], [])

  ghost predicate Trace(states: seq<State>, steps: seq<Step>) {
    && |states| == |steps| + 1
    && forall i :: 0 <= i < |steps| ==>
         && Enabled(states[i], steps[i]) && (states[i].phase.Idle? || states[i].phase.n <= |states[i].queue|)
         && states[i + 1] == Apply(states[i], steps[i])
  }

  // ----- what commits add up to -----

  /** The writers of all commits, in order. */
  function Retired(cs: seq<Commit>): seq<Writer> {
    if cs == [] then [] else Retired(cs[..|cs| - 1]) + cs[|cs| - 1].writers
  }

  /** The writers that were told their write is done. */
  function Acknowledged(cs: seq<Commit>): seq<Writer> {
    if cs == [] then [] else Acknowledged(cs[..|cs| - 1]) + if cs[|cs| - 1].ok then cs[|cs| - 1].writers else []
  }

  /** The records the commits put into the log. */
  function Logged(cs: seq<Commit>): seq<Record> {
    if cs == [] then []
    else
      var c := cs[|cs| - 1];
      Logged(cs[..|cs| - 1]) + if c.logged then [Record(c.first, AllOps(c.writers))] else []
  }

  /** Operation i under the i-th number from first. */
  function Number(first: nat, ops: seq<Op>): seq<(nat, Op)> {
    seq(|ops|, i requires 0 <= i < |ops| => (first + i, ops[i]))
  }

  /** What the commits put into the memtable. */
  function Applied(cs: seq<Commit>): seq<(nat, Op)> {
    if cs == [] then []
    else
      var c := cs[|cs| - 1];
      Applied(cs[..|cs| - 1]) + if c.ok then Number(c.first, AllOps(c.writers)) else []
  }

  /** Commits get the sequence numbers from 1 on, without gaps or overlaps. */
  predicate Numbered(cs: seq<Commit>, lastSequence: nat) {
    if cs == [] then lastSequence == 0
    else
      var c := cs[|cs| - 1];
      c.first + c.used == lastSequence + 1 && c.first > 0 && Numbered(cs[..|cs| - 1], c.first - 1)
  }

  /** A group of this size may form behind a first batch of that size: at most 1 MB, and
      behind one of up to 128 KB at most 128 KB more. */
  predicate Fits(total: nat, first: nat) {
    total <= 1048576 && (first <= 131072 ==> total <= first + 131072)
  }

  lemma FitsIsMax(w: Writer, total: nat)
    ensures Fits(total, SizeOf(w)) <==> total <= MaxSize(w)
  {
  }

  /** A group is no larger than allowed, and a write that wants a sync only goes with a
      leader that syncs. */
  ghost predicate GroupOk(ws: seq<Writer>) {
    && ws != []
    && (forall i :: 0 <= i < |ws| ==> ws[i].sync ==> ws[0].sync)
    && (TotalSize(ws, |ws|) <= SizeOf(ws[0]) || Fits(TotalSize(ws, |ws|), SizeOf(ws[0])))
  }

  /** What was acknowledged was numbered and, if it has operations, logged. */
  ghost predicate CommitOk(c: Commit) {
    && GroupOk(c.writers) && (c.logged ==> c.used == |AllOps(c.writers)|)
    && (c.ok ==> c.used == |AllOps(c.writers)| && (c.logged || AllOps(c.writers) == []))
  }

  /** The records of acknowledged groups whose leader syncs are on disk. */
  ghost predicate SyncedOk(cs: seq<Commit>, synced: nat) {
    forall i :: 0 <= i < |cs| && cs[i].ok && cs[i].logged && cs[i].writers != [] && cs[i].writers[0].sync ==>
      |Logged(cs[..i + 1])| <= synced
  }

  predicate InLog(p: Phase) {
    p.Appended? || p.Synced? || p.Inserted? || (p.Failed? && p.logged)
  }

  ghost predicate QueueOk(s: State) {
    && Retired(s.commits) + s.queue == s.arrived
    && Numbered(s.commits, s.lastSequence)
    && (forall i :: 0 <= i < |s.commits| ==> CommitOk(s.commits[i]))
    && (!s.phase.Idle? ==>
          && s.phase.first == s.lastSequence + 1 && 1 <= s.phase.n <= |s.queue|
          && (forall i :: 0 < i < s.phase.n ==> Admissible(s.queue, i)))
  }

  ghost predicate StoreOk(s: State) {
    && s.log == Logged(s.commits) + (if InLog(s.phase) then [Record(s.phase.first, Group(s))] else [])
    && s.mem == Applied(s.commits) + (if s.phase.Inserted? then Number(s.phase.first, Group(s)) else [])
    && s.synced <= |s.log| && SyncedOk(s.commits, s.synced)
    && (s.phase.Synced? || (s.phase.Inserted? && s.queue != [] && s.queue[0].sync) ==> s.synced == |s.log|)
  }

  ghost predicate Inv(s: State) {
    QueueOk(s) && StoreOk(s)
  }

  lemma {:induction false} SizeFits(ws: seq<Writer>, n: nat)
    requires 1 <= n <= |ws| && forall i :: 0 < i < n ==> Admissible(ws, i)
    ensures TotalSize(ws, n) <= SizeOf(ws[0]) || Fits(TotalSize(ws, n), SizeOf(ws[0]))
  {
    FitsIsMax(ws[0], TotalSize(ws, n));
    if n == 1 {
      assert TotalSize(ws, 0) == 0;
    } else {
      SizeFits(ws, n - 1);
      assert Admissible(ws, n - 1);
    }
  }

  lemma GroupFits(ws: seq<Writer>, n: nat)
    requires 1 <= n <= |ws| && forall i :: 0 < i < n ==> Admissible(ws, i)
    ensures GroupOk(ws[..n])
  {
    SizeFits(ws, n);
    FirstOnly(ws, ws[..n], n);
    forall i | 0 <= i < n && ws[..n][i].sync ensures ws[0].sync {
      assert i > 0 ==> Admissible(ws, i);
    }
  }

  lemma AdmissibleStays(ws: seq<Writer>, w: Writer, i: nat)
    requires 0 < i < |ws| && Admissible(ws, i)
    ensures Admissible(ws + [w], i)
  {
    FirstOnly(ws, ws + [w], i + 1);
  }

  lemma OneMore(cs: seq<Commit>, c: Commit)
    ensures Retired(cs + [c]) == Retired(cs) + c.writers
    ensures Acknowledged(cs + [c]) == Acknowledged(cs) + if c.ok then c.writers else []
    ensures Logged(cs + [c]) == Logged(cs) + if c.logged then [Record(c.first, AllOps(c.writers))] else []
    ensures Applied(cs + [c]) == Applied(cs) + if c.ok then Number(c.first, AllOps(c.writers)) else []
    ensures c.first > 0 && Numbered(cs, c.first - 1) ==> Numbered(cs + [c], c.first + c.used - 1)
  {
    assert (cs + [c])[..|cs|] == cs;
  }

  lemma SyncedMore(cs: seq<Commit>, c: Commit, synced: nat)
    requires SyncedOk(cs, synced)
    requires c.ok && c.logged && c.writers != [] && c.writers[0].sync ==> |Logged(cs + [c])| <= synced
    ensures SyncedOk(cs + [c], synced)
  {
    var ds := cs + [c];
    forall i | 0 <= i < |ds| && ds[i].ok && ds[i].logged && ds[i].writers != [] && ds[i].writers[0].sync
      ensures |Logged(ds[..i + 1])| <= synced
    {
      if i < |cs| { assert ds[..i + 1] == cs[..i + 1]; } else { assert ds[..i + 1] == ds; }
    }
  }

  // ----- every step keeps it -----

  lemma StepKeeps(s: State, step: Step)
    requires Inv(s) && Enabled(s, step)
    ensures Inv(Apply(s, step))
  {
    match step
    case Enqueue(w) => EnqueueKeeps(s, w);
    case Fail => IdleKeeps(s, false);
    case SwitchOnly => IdleKeeps(s, true);
    case Begin(n) =>
    case Append(ok) => WriteKeeps(s, step);
    case Sync(ok) => SyncKeeps(s, ok);
    case Insert => WriteKeeps(s, step);
    case End => EndKeeps(s);
  }

  lemma IdleKeeps(s: State, ok: bool)
    requires Inv(s) && s.phase.Idle? && s.queue != [] && (ok ==> s.queue[0].batch.None?)
    ensures Inv(Popped(s, Lone(s, ok), 1))
  {
    LoneWriter(s.queue);
    PopQueue(s, Lone(s, ok), 1);
    PopStore(s, Lone(s, ok), 1);
  }

  lemma LoneWriter(ws: seq<Writer>)
    requires ws != []
    ensures ws[0].batch.None? ==> AllOps(ws[..1]) == []
  {
    assert OpsTo(ws[..1], 0) == [];
  }

  lemma EndKeeps(s: State)
    requires Inv(s) && (s.phase.Inserted? || s.phase.Failed?)
    ensures Inv(Popped(s, Whole(s), s.phase.n))
  {
    FirstOnly(s.queue, Whole(s).writers, s.phase.n);
    PopQueue(s, Whole(s), s.phase.n);
    PopStore(s, Whole(s), s.phase.n);
  }

  lemma WriteKeeps(s: State, step: Step)
    requires Inv(s) && Enabled(s, step) && (step.Append? || step.Insert?)
    ensures Inv(Apply(s, step))
  {
    var s' := Apply(s, step);
    assert Group(s') == Group(s);
  }

  lemma SyncKeeps(s: State, ok: bool)
    requires Inv(s) && Enabled(s, Sync(ok))
    ensures Inv(Apply(s, Sync(ok)))
  {
    assert Group(Apply(s, Sync(ok))) == Group(s);
  }

  lemma EnqueueKeeps(s: State, w: Writer)
    requires Inv(s)
    ensures Inv(s.(queue := s.queue + [w], arrived := s.arrived + [w]))
  {
    var s' := s.(queue := s.queue + [w], arrived := s.arrived + [w]);
    assert Retired(s.commits) + (s.queue + [w]) == Retired(s.commits) + s.queue + [w];
    if !s.phase.Idle? {
      FirstOnly(s.queue, s'.queue, s.phase.n);
      forall i | 0 < i < s.phase.n ensures Admissible(s'.queue, i) {
        AdmissibleStays(s.queue, w, i);
      }
    }
  }

  /** The group leaves the queue as a commit. */
  lemma PopQueue(s: State, c: Commit, n: nat)
    requires QueueOk(s) && 1 <= n <= |s.queue| && c.writers == s.queue[..n] && c.first == s.lastSequence + 1
    requires forall i :: 0 < i < n ==> Admissible(s.queue, i)
    requires c.logged || c.ok ==> c.used == |AllOps(c.writers)|
    requires c.ok ==> c.logged || AllOps(c.writers) == []
    ensures QueueOk(Popped(s, c, n))
  {
    OneMore(s.commits, c);
    GroupFits(s.queue, n);
    assert s.queue == s.queue[..n] + s.queue[n..];
  }

  /** What it has written becomes what the commit says. */
  lemma PopStore(s: State, c: Commit, n: nat)
    requires StoreOk(s) && 1 <= n <= |s.queue| && c.writers == s.queue[..n]
    requires !s.phase.Idle? ==> s.phase.n == n && c.first == s.phase.first
    requires (c.logged <==> InLog(s.phase)) && (s.phase.Inserted? ==> c.ok)
    requires c.ok ==> s.phase.Inserted? || (s.phase.Idle? && AllOps(c.writers) == [])
    ensures StoreOk(Popped(s, c, n))
  {
    PopLog(s, c, n);
    PopMem(s, c, n);
    SyncedMore(s.commits, c, s.synced);
    IdleStore(Popped(s, c, n));
  }

  lemma IdleStore(s: State)
    requires s.phase.Idle? && s.log == Logged(s.commits) && s.mem == Applied(s.commits)
    requires s.synced <= |s.log| && SyncedOk(s.commits, s.synced)
    ensures StoreOk(s)
  {
    assert s.log + [] == s.log && s.mem + [] == s.mem;
  }

  lemma PopLog(s: State, c: Commit, n: nat)
    requires StoreOk(s) && 1 <= n <= |s.queue| && c.writers == s.queue[..n] && (c.logged <==> InLog(s.phase))
    requires !s.phase.Idle? ==> s.phase.n == n && c.first == s.phase.first
    ensures Logged(s.commits + [c]) == s.log
  {
    OneMore(s.commits, c);
    FirstOnly(s.queue, c.writers, n);
  }

  lemma PopMem(s: State, c: Commit, n: nat)
    requires StoreOk(s) && 1 <= n <= |s.queue| && c.writers == s.queue[..n] && (s.phase.Inserted? ==> c.ok)
    requires !s.phase.Idle? ==> s.phase.n == n && c.first == s.phase.first
    requires c.ok ==> s.phase.Inserted? || (s.phase.Idle? && AllOps(c.writers) == [])
    ensures Applied(s.commits + [c]) == s.mem
  {
    OneMore(s.commits, c);
    FirstOnly(s.queue, c.writers, n);
    assert AllOps(c.writers) == [] ==> Number(c.first, AllOps(c.writers)) == [];
  }

  /** Over every interleaving of arrivals, logging, syncing, inserting and failures. */
  lemma {:induction false} RunsCommit(states: seq<State>, steps: seq<Step>, i: nat)
    requires Trace(states, steps) && states[0] == START && i < |states|
    ensures Inv(states[i])
  {
    if i > 0 {
      RunsCommit(states, steps, i - 1);
      StepKeeps(states[i - 1], steps[i - 1]);
    }
  }

  // ----- what that means -----

  /** Earlier commits have the smaller numbers, and no number is given twice. */
  lemma {:induction false} RangesDisjoint(cs: seq<Commit>, last: nat, i: nat, j: nat)
    requires Numbered(cs, last) && i < j < |cs|
    ensures cs[i].first + cs[i].used <= cs[j].first && cs[j].first + cs[j].used <= last + 1
    decreases |cs|
  {
    var rest, c := cs[..|cs| - 1], cs[|cs| - 1];
    if j < |cs| - 1 {
      RangesDisjoint(rest, c.first - 1, i, j);
    } else {
      RangeWithin(rest, c.first - 1, i);
    }
  }

  lemma {:induction false} RangeWithin(cs: seq<Commit>, last: nat, i: nat)
    requires Numbered(cs, last) && i < |cs|
    ensures 1 <= cs[i].first && cs[i].first + cs[i].used <= last + 1
    decreases |cs|
  {
    if i < |cs| - 1 { RangeWithin(cs[..|cs| - 1], cs[|cs| - 1].first - 1, i); }
  }

  function Operations(applied: seq<(nat, Op)>): seq<Op> {
    seq(|applied|, i requires 0 <= i < |applied| => applied[i].1)
  }

  /** Numbers ascend and stay within 1 to last. */
  predicate Ascending(a: seq<(nat, Op)>, last: nat) {
    && (forall i :: 0 <= i < |a| ==> 1 <= a[i].0 <= last)
    && (forall i, j :: 0 <= i < j < |a| ==> a[i].0 < a[j].0)
  }

  lemma Regroup(a: seq<Op>, b: seq<Op>, c: seq<Op>)
    ensures a + b + c == a + (b + c)
  {
  }

  lemma {:induction false} OpsConcat(a: seq<Writer>, b: seq<Writer>, n: nat)
    requires n <= |b|
    ensures OpsTo(a + b, |a| + n) == AllOps(a) + OpsTo(b, n)
  {
    if n == 0 {
      FirstOnly(a, a + b, |a|);
    } else {
      OpsConcat(a, b, n - 1);
      assert (a + b)[|a| + n - 1] == b[n - 1];
      Regroup(AllOps(a), OpsTo(b, n - 1), OpsOf(b[n - 1]));
    }
  }

  lemma OperationsGrow(a: seq<(nat, Op)>, first: nat, ops: seq<Op>)
    ensures Operations(a + Number(first, ops)) == Operations(a) + ops
  {
  }

  lemma NumbersGrow(a: seq<(nat, Op)>, first: nat, ops: seq<Op>)
    requires first > 0 && Ascending(a, first - 1)
    ensures Ascending(a + Number(first, ops), first + |ops| - 1)
  {
  }

  lemma OnceMore(a: seq<(nat, Op)>, ws: seq<Writer>, c: Commit)
    requires c.first > 0 && Operations(a) == AllOps(ws) && Ascending(a, c.first - 1)
    requires c.used == |AllOps(c.writers)|
    ensures var a' := a + Number(c.first, AllOps(c.writers));
            Operations(a') == AllOps(ws + c.writers) && Ascending(a', c.first + c.used - 1)
  {
    OpsConcat(ws, c.writers, |c.writers|);
    OperationsGrow(a, c.first, AllOps(c.writers));
    NumbersGrow(a, c.first, AllOps(c.writers));
  }

  /** Whatever failed: the memtable has every operation of every acknowledged writer
      exactly once, in queue order, under ascending numbers, and no other operation. */
  lemma {:induction false} AcknowledgedOnce(cs: seq<Commit>, last: nat)
    requires Numbered(cs, last) && forall i :: 0 <= i < |cs| ==> CommitOk(cs[i])
    ensures Operations(Applied(cs)) == AllOps(Acknowledged(cs))
    ensures Ascending(Applied(cs), last)
    decreases |cs|
  {
    if cs != [] {
      var rest, c := cs[..|cs| - 1], cs[|cs| - 1];
      assert CommitOk(c);
      AcknowledgedOnce(rest, c.first - 1);
      if c.ok {
        OnceMore(Applied(rest), Acknowledged(rest), c);
      } else {
        assert Applied(cs) == Applied(rest) && Acknowledged(cs) == Acknowledged(rest);
      }
    }
  }

  /** Without failures every retired writer was acknowledged, and the numbers are all of
      1 to the last one. */
  lemma {:induction false} NoFailures(cs: seq<Commit>, last: nat)
    requires Numbered(cs, last) && forall i :: 0 <= i < |cs| ==> cs[i].ok && CommitOk(cs[i])
    ensures Acknowledged(cs) == Retired(cs) && |Applied(cs)| == last
    decreases |cs|
  {
    if cs != [] {
      assert CommitOk(cs[|cs| - 1]);
      NoFailures(cs[..|cs| - 1], cs[|cs| - 1].first - 1);
    }
  }

  lemma RecordOf(cs: seq<Commit>, i: nat)
    requires i < |cs| && cs[i].logged
    ensures var k := |Logged(cs[..i + 1])| - 1;
            0 <= k < |Logged(cs)| && Logged(cs)[k] == Record(cs[i].first, AllOps(cs[i].writers))
  {
    LoggedPrefix(cs, i + 1);
    assert cs[..i + 1] == cs[..i] + [cs[i]];
    OneMore(cs[..i], cs[i]);
  }

  lemma LeaderSyncs(ws: seq<Writer>, w: Writer)
    requires GroupOk(ws) && w in ws && w.sync
    ensures ws[0].sync
  {
  }

  /** What an acknowledged group put into the memtable is a record of the log, under the
      same numbers, and if one of its writers wanted a sync it is among the synced ones. */
  lemma AcknowledgedIsLogged(s: State, i: nat)
    requires Inv(s) && i < |s.commits| && s.commits[i].ok && AllOps(s.commits[i].writers) != []
    ensures var k := |Logged(s.commits[..i + 1])| - 1;
            && 0 <= k < |s.log| && s.log[k] == Record(s.commits[i].first, AllOps(s.commits[i].writers))
            && ((exists w :: w in s.commits[i].writers && w.sync) ==> k < s.synced)
  {
    assert CommitOk(s.commits[i]);
    RecordOf(s.commits, i);
    if w :| w in s.commits[i].writers && w.sync {
      LeaderSyncs(s.commits[i].writers, w);
    }
  }

  lemma {:induction false} LoggedPrefix(cs: seq<Commit>, k: nat)
    requires k <= |cs|
    ensures Logged(cs[..k]) <= Logged(cs)
    decreases |cs| - k
  {
    if k < |cs| {
      LoggedPrefix(cs, k + 1);
      assert cs[..k + 1][..k] == cs[..k];
    } else {
      assert cs[..k] == cs;
    }
  }
}
