/** The engine as a state machine: writes, memtable switches, flushes, snapshots and
    compactions that overlap with flushes (db/db_impl.cc:637-671, 1430-1640, 2869-2889).
    Reads at every live snapshot stay right over every run. */
module Engine {
  import opened InternalKeys
  import opened Versions
  import opened Selection
  import opened DropView
  import opened Install
  import opened CompactionView
  import opened Merge
  import opened FileNumbers
  import VersionGet

  datatype Imm = NoImm | Imm(entries: seq<Entry>)

  /** The one background compaction: chosen against `base`, it may be installed on a
      version that has received flushes since. `numbers` are those its outputs may have. */
  datatype Job = Idle | Busy(plan: Plan, base: Version, input: seq<Entry>, smallestSnapshot: nat, numbers: set<nat>)

  /** `flushed` remembers every entry that ever reached a table. */
  datatype Db = Db(mem: seq<Entry>, imm: Imm, version: Version, lastSequence: nat, snapshots: seq<nat>,
                   nextFile: nat, job: Job, flushed: set<Entry>)

  function ImmEntries(d: Db): seq<Entry> {
    if d.imm.NoImm? then [] else d.imm.entries
  }

  /** Everything ever written. */
  ghost function History(d: Db): set<Entry> {
    Elems(d.mem) + Elems(ImmEntries(d)) + d.flushed
  }

  /** The smallest snapshot a compaction must respect (db/db_impl.cc:1525-1529). */
  function Oldest(d: Db): nat {
    if d.snapshots == [] then d.lastSequence else d.snapshots[0]
  }

  // ----- steps -----

  datatype Step =
    | Write(batch: seq<Entry>)
    | Switch
    | Flush(size: nat, pos: nat)
    | TakeSnapshot
    | ReleaseSnapshot(index: nat)
    | BeginCompaction(level: nat, in0: seq<File>, in1: seq<File>, lo: nat, hi: nat, input: seq<Entry>)
    | OpenOutput
    | FinishCompaction(outs: seq<File>)
    | TrivialMove(level: nat, in0: seq<File>, lo: nat)

  /** Sequence numbers are handed out one after the other. */
  predicate Numbered(batch: seq<Entry>, first: nat) {
    forall i :: 0 <= i < |batch| ==> batch[i].ik.sn == first + i
  }

  ghost predicate Enabled(d: Db, s: Step) {
    match s
    case Write(batch) => Numbered(batch, d.lastSequence + 1)
    case Switch => d.imm.NoImm?
    case Flush(size, pos) =>
      && d.imm.Imm? && d.imm.entries != [] && |d.version.levels| > 0 && pos <= |d.version.levels[0]|
      && Listed(AddLevel0(d.version, ToFile(d.nextFile, size, d.imm.entries), pos))
    case TakeSnapshot => true
    case ReleaseSnapshot(i) => i < |d.snapshots|
    case BeginCompaction(level, in0, in1, lo, hi, input) =>
      && d.job.Idle? && GoodInputs(d.version, level, in0, in1)
      && Meets(d.version.levels[level + 1], in0, in1, lo, hi)
      && Ready(d.version, Plan(level, in0, lo, hi))
      && Merged(d.version, Plan(level, in0, lo, hi), input)
    case OpenOutput => d.job.Busy?
    case FinishCompaction(outs) =>
      && d.job.Busy? && SortedLevel(outs) && DistinctNumbers(outs) && (forall o :: o in outs ==> o.number in d.job.numbers)
      && FilesElems(outs) == KeptElems(d.job.base, d.job.plan.level, d.job.smallestSnapshot, d.job.input)
      && Ready(d.version, d.job.plan)
    case TrivialMove(level, in0, lo) =>
      && d.job.Idle? && |in0| == 1 && GoodInputs(d.version, level, in0, [])
      && Meets(d.version.levels[level + 1], in0, [], lo, lo)
      && Ready(d.version, Plan(level, in0, lo, lo))
  }

  function AddLevel0(v: Version, f: File, pos: nat): Version
    requires |v.levels| > 0 && pos <= |v.levels[0]|
  {
    Version(v.levels[0 := v.levels[0][..pos] + [f] + v.levels[0][pos..]])
  }

  ghost function Apply(d: Db, s: Step): Db
    requires Enabled(d, s)
  {
    match s
    case Write(batch) => d.(mem := InsertAll(d.mem, batch), lastSequence := d.lastSequence + |batch|)
    case Switch => d.(mem := [], imm := Imm(d.mem))
    case Flush(size, pos) =>
      d.(imm := NoImm, nextFile := d.nextFile + 1, flushed := d.flushed + Elems(d.imm.entries),
         version := AddLevel0(d.version, ToFile(d.nextFile, size, d.imm.entries), pos))
    case TakeSnapshot => d.(snapshots := d.snapshots + [d.lastSequence])
    case ReleaseSnapshot(i) => d.(snapshots := d.snapshots[..i] + d.snapshots[i + 1..])
    case BeginCompaction(level, in0, in1, lo, hi, input) =>
      d.(job := Busy(Plan(level, in0, lo, hi), d.version, input, Oldest(d), {}))
    case OpenOutput => d.(nextFile := d.nextFile + 1, job := d.job.(numbers := d.job.numbers + {d.nextFile}))
    case FinishCompaction(outs) =>
      d.(job := Idle, version := Installed(d.version, d.job.plan, outs))
    case TrivialMove(level, in0, lo) =>
      d.(version := Installed(d.version, Plan(level, in0, lo, lo), in0))
  }

  // ----- the invariant -----

  ghost predicate AllBelow(S: set<Entry>, n: nat) {
    forall e :: e in S ==> e.ik.sn <= n
  }

  ghost predicate Above(S: set<Entry>, T: set<Entry>) {
    forall e, f :: e in S && f in T ==> e.ik.sn > f.ik.sn
  }

  ghost predicate MemoryOk(d: Db) {
    && Sorted(d.mem) && Sorted(ImmEntries(d))
    && Above(Elems(d.mem), Elems(ImmEntries(d)))
    && Above(Elems(d.mem), d.flushed) && Above(Elems(ImmEntries(d)), d.flushed)
    && AllBelow(Elems(d.mem), d.lastSequence) && AllBelow(Elems(ImmEntries(d)), d.lastSequence)
    && AllBelow(d.flushed, d.lastSequence)
  }

  ghost predicate SnapshotsOk(d: Db) {
    && (forall i :: 0 <= i < |d.snapshots| ==> d.snapshots[i] <= d.lastSequence)
    && (forall i, j :: 0 <= i < j < |d.snapshots| ==> d.snapshots[i] <= d.snapshots[j])
  }

  ghost predicate NumbersOk(d: Db) {
    && (forall l, f :: InLevel(d.version, l, f) ==> f.number < d.nextFile)
    && UniqueNumbers(d.version) && Listed(d.version)
    && (d.job.Busy? ==>
          && (forall n :: n in d.job.numbers ==> n < d.nextFile)
          && (forall l, f :: InLevel(d.version, l, f) ==> f.number !in d.job.numbers))
  }

  /** The tables may have lost versions, but no reader that still exists can tell. */
  ghost predicate TablesOk(d: Db) {
    && WellFormed(d.version)
    && VersionElems(d.version) <= d.flushed && Distinct(d.flushed)
    && SameView(VersionElems(d.version), d.flushed, Oldest(d))
  }

  ghost predicate JobOk(d: Db) {
    d.job.Busy? ==>
      && Ready(d.version, d.job.plan) && Merged(d.version, d.job.plan, d.job.input)
      && d.job.smallestSnapshot <= Oldest(d)
      && |d.job.base.levels| == |d.version.levels|
      && (forall l :: 1 <= l < |d.version.levels| ==> d.job.base.levels[l] == d.version.levels[l])
  }

  ghost predicate Inv(d: Db) {
    MemoryOk(d) && SnapshotsOk(d) && TablesOk(d) && NumbersOk(d) && JobOk(d)
  }

  // ----- reading -----

  /** DBImpl::Get: memtable, immutable memtable, version (db/db_impl.cc:2231-2330). */
  method Get(d: Db, k: UserKey, s: nat) returns (o: Outcome)
    requires Inv(d) && Oldest(d) <= s
    ensures Visible(o) == Visible(Look(History(d), k, s))
  {
    var mem := File(0, 0, IKey(0, 0), IKey(0, 0), d.mem);
    var imm := File(0, 0, IKey(0, 0), IKey(0, 0), ImmEntries(d));
    HistoryLayers(d, k, s);
    SeekIsLook(mem, k, s);
    SeekIsLook(imm, k, s);
    o := TableGet(mem, k, s);
    if !o.Missing? { return; }
    if d.imm.Imm? {
      o := TableGet(imm, k, s);
      if !o.Missing? { return; }
    }
    o := VersionGet.Get(d.version, k, s);
  }

  lemma SeekIsLook(f: File, k: UserKey, s: nat)
    requires Sorted(f.entries)
    ensures Distinct(FileElems(f))
    ensures TableGet(f, k, s) == Look(FileElems(f), k, s)
  {
    if f.entries == [] {
      LookNone(FileElems(f), k, s);
    } else {
      var g := ToFile(0, 0, f.entries);
      TableGetIsLook(g, k, s);
      assert FileElems(g) == FileElems(f);
    }
  }

  lemma HistoryLayers(d: Db, k: UserKey, s: nat)
    requires Inv(d)
    ensures Distinct(History(d))
    ensures Look(History(d), k, s) ==
            var m, i := Look(Elems(d.mem), k, s), Look(Elems(ImmEntries(d)), k, s);
            if !m.Missing? then m else if !i.Missing? then i else Look(d.flushed, k, s)
  {
    SortedDistinct(d.mem);
    SortedDistinct(ImmEntries(d));
    LookLayered(Elems(ImmEntries(d)), d.flushed, k, s);
    LookLayered(Elems(d.mem), Elems(ImmEntries(d)) + d.flushed, k, s);
    assert History(d) == Elems(d.mem) + (Elems(ImmEntries(d)) + d.flushed);
  }
}
