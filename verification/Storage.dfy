/** The disk and the version together: what the manifest calls live is a version of
    well-formed levels, through flushes, compactions, crashes and recoveries. Here the
    compactions of the disk machine are those that Install and CompactionView describe. */
module Storage {
  import opened InternalKeys
  import opened Versions
  import opened DropView
  import opened Install
  import opened CompactionView
  import opened Merge
  import opened FileNumbers
  import VersionGet
  import Compaction
  import Engine
  import EngineRuns
  import B = Builder
  import D = Durability
  import R = DurabilityRuns

  // ----- what the engine's compactions do to the tables -----

  /** Without a torn marker, and only then, a finished compaction drops nothing that a
      reader at its smallest snapshot or later could see. */
  lemma FinishDrops(d: Engine.Db, outs: seq<File>)
    requires Engine.Inv(d) && Engine.Enabled(d, Engine.FinishCompaction(outs))
    ensures var w := Engine.Apply(d, Engine.FinishCompaction(outs)).version;
            D.Drops(VersionElems(d.version), VersionElems(w), d.job.smallestSnapshot) <==>
              !EngineRuns.Tears(d, Engine.FinishCompaction(outs))
  {
    EngineRuns.FinishView(d, outs);
  }

  lemma MoveDrops(d: Engine.Db, s: Engine.Step, t: nat)
    requires Engine.Inv(d) && s.TrivialMove? && Engine.Enabled(d, s)
    ensures D.Drops(VersionElems(d.version), VersionElems(Engine.Apply(d, s).version), t)
  {
    EngineRuns.MoveShape(d.version, Plan(s.level, s.in0, s.lo, s.lo));
  }

  // ----- files behind the manifest -----

  ghost predicate Named(v: Version, n: nat) {
    exists l, f :: InLevel(v, l, f) && f.number == n
  }

  /** The live numbers are those of the version's files, and the tables hold their entries. */
  ghost predicate Mirrors(d: D.Disk, v: Version) {
    && UniqueNumbers(v)
    && (forall l, f :: InLevel(v, l, f) ==> f.number in d.live && f.number in d.tables && d.tables[f.number] == FileElems(f))
    && (forall n :: n in d.live ==> Named(v, n))
  }

  lemma MirrorPresent(d: D.Disk, v: Version)
    requires Mirrors(d, v)
    ensures D.Present(d) == VersionElems(v)
  {
    forall e | e in D.Present(d) ensures e in VersionElems(v) {
      var n :| n in d.live && n in d.tables && e in d.tables[n];
      assert Named(v, n);
      var l, f :| InLevel(v, l, f) && f.number == n;
      assert e in FileElems(f);
    }
    forall e | e in VersionElems(v) ensures e in D.Present(d) {
      var l, f :| 0 <= l < |v.levels| && f in v.levels[l] && e in f.entries;
      assert InLevel(v, l, f) && e in FileElems(f);
    }
  }

  // ----- new files on level 0 -----

  /** Level 0 after a Builder has added these files. */
  ghost predicate Joined(files: seq<File>, more: seq<File>, level0: seq<File>) {
    B.Ordered(level0) && B.Files(level0) == B.Files(files) + B.Files(more)
  }

  /** Files that are newer than all tables, with larger numbers, and newer among each other
      with larger numbers. */
  ghost predicate NewFiles(v: Version, fs: seq<File>) {
    && (forall f :: f in fs ==> f.Valid())
    && (forall f, l, g :: f in fs && InLevel(v, l, g) ==> Newer(f, g) && g.number < f.number)
    && (forall f, g :: f in fs && g in fs && f.number > g.number ==> Newer(f, g))
    && (forall f, g :: f in fs && g in fs && f.number == g.number ==> f == g)
  }

  function WithLevel0(v: Version, level0: seq<File>): Version
    requires |v.levels| > 0
  {
    Version(v.levels[0 := level0])
  }

  lemma JoinedFiles(v: Version, fs: seq<File>, level0: seq<File>, l: nat, f: File)
    requires |v.levels| > 0 && Joined(v.levels[0], fs, level0)
    ensures InLevel(WithLevel0(v, level0), l, f) <==> InLevel(v, l, f) || (l == 0 && f in fs)
  {
    assert f in level0 <==> f in B.Files(level0);
    assert f in v.levels[0] <==> f in B.Files(v.levels[0]);
    assert f in fs <==> f in B.Files(fs);
  }

  /** A number of level 0 names one file. */
  lemma JoinedOnce(v: Version, fs: seq<File>, level0: seq<File>, f: File, g: File)
    requires |v.levels| > 0 && DistinctNumbers(v.levels[0]) && Joined(v.levels[0], fs, level0) && NewFiles(v, fs)
    requires f in level0 && g in level0 && f.number == g.number
    ensures f == g
  {
    JoinedFiles(v, fs, level0, 0, f);
    JoinedFiles(v, fs, level0, 0, g);
    if f in v.levels[0] && g in v.levels[0] {
      var i :| 0 <= i < |v.levels[0]| && v.levels[0][i] == f;
      var j :| 0 <= j < |v.levels[0]| && v.levels[0][j] == g;
    } else {
      assert f in v.levels[0] ==> InLevel(v, 0, f);
      assert g in v.levels[0] ==> InLevel(v, 0, g);
    }
  }

  lemma JoinedLevel0(v: Version, fs: seq<File>, level0: seq<File>)
    requires WellFormed(v) && Joined(v.levels[0], fs, level0) && NewFiles(v, fs)
    ensures OrderedLevel0(level0)
  {
    forall i, j | 0 <= i < j < |level0| ensures level0[i].number != level0[j].number {
      if level0[i].number == level0[j].number { JoinedOnce(v, fs, level0, level0[i], level0[j]); }
    }
    forall i | 0 <= i < |level0| ensures level0[i].Valid() {
      JoinedFiles(v, fs, level0, 0, level0[i]);
    }
    forall f, g | f in level0 && g in level0 && f.number > g.number ensures Newer(f, g) {
      JoinedFiles(v, fs, level0, 0, f);
      JoinedFiles(v, fs, level0, 0, g);
      assert f in v.levels[0] ==> InLevel(v, 0, f);
      assert g in v.levels[0] ==> InLevel(v, 0, g);
    }
  }

  /** Newest-first search of level 0 stays right when such files arrive, one by a flush or
      several by a recovery. */
  lemma JoinedShape(v: Version, fs: seq<File>, level0: seq<File>)
    requires WellFormed(v) && Joined(v.levels[0], fs, level0) && NewFiles(v, fs)
    ensures WellFormed(WithLevel0(v, level0))
  {
    var w := WithLevel0(v, level0);
    JoinedLevel0(v, fs, level0);
    forall i, j, f, g | 0 <= i < j && InLevel(w, i, f) && InLevel(w, j, g) ensures Newer(f, g) {
      JoinedFiles(v, fs, level0, i, f);
      JoinedFiles(v, fs, level0, j, g);
    }
  }

  lemma JoinedUnique(v: Version, fs: seq<File>, level0: seq<File>)
    requires WellFormed(v) && UniqueNumbers(v) && Joined(v.levels[0], fs, level0) && NewFiles(v, fs)
    ensures UniqueNumbers(WithLevel0(v, level0))
  {
    var w := WithLevel0(v, level0);
    JoinedLevel0(v, fs, level0);
    forall l, m, f, g | InLevel(w, l, f) && InLevel(w, m, g) && f.number == g.number ensures l == m {
      JoinedFiles(v, fs, level0, l, f);
      JoinedFiles(v, fs, level0, m, g);
    }
  }

  /** The manifest gets the numbers, the version the files. */
  lemma JoinedMirrors(d: D.Disk, v: Version, fs: seq<File>, level0: seq<File>, d': D.Disk)
    requires WellFormed(v) && Mirrors(d, v) && Joined(v.levels[0], fs, level0) && NewFiles(v, fs)
    requires d'.tables == d.tables && d'.live == d.live + B.Numbers(B.Files(fs))
    requires forall f :: f in fs ==> f.number in d.tables && d.tables[f.number] == FileElems(f)
    ensures Mirrors(d', WithLevel0(v, level0))
  {
    var w := WithLevel0(v, level0);
    JoinedUnique(v, fs, level0);
    forall l, f | InLevel(w, l, f) ensures f.number in d'.live && f.number in d'.tables && d'.tables[f.number] == FileElems(f) {
      JoinedFiles(v, fs, level0, l, f);
      if l == 0 && f in fs { assert f in B.Files(fs); }
    }
    forall n | n in d'.live ensures Named(w, n) {
      if n in d.live {
        assert Named(v, n);
        var l, f :| InLevel(v, l, f) && f.number == n;
        JoinedFiles(v, fs, level0, l, f);
      } else {
        var f :| f in B.Files(fs) && f.number == n;
        JoinedFiles(v, fs, level0, 0, f);
      }
    }
  }

  // ----- compactions -----

  /** The tables of the first n files. */
  ghost function TablesOf(fs: seq<File>, n: nat): map<nat, set<Entry>>
    requires n <= |fs|
  {
    if n == 0 then map[] else TablesOf(fs, n - 1)[fs[n - 1].number := FileElems(fs[n - 1])]
  }

  lemma {:induction false} TablesAre(fs: seq<File>, n: nat)
    requires n <= |fs| && DistinctNumbers(fs)
    ensures forall k :: k in TablesOf(fs, n) <==> exists i :: 0 <= i < n && fs[i].number == k
    ensures forall i :: 0 <= i < n ==> fs[i].number in TablesOf(fs, n) && TablesOf(fs, n)[fs[i].number] == FileElems(fs[i])
  {
    if n > 0 { TablesAre(fs, n - 1); }
  }

  /** The numbers of a compaction's inputs. */
  ghost function InputNumbers(v: Version, p: Plan): set<nat>
    requires Ready(v, p)
  {
    B.Numbers(B.Files(p.in0)) + B.Numbers(B.Files(In1(v, p)))
  }

  lemma InputNumber(v: Version, p: Plan, l: nat, f: File)
    requires UniqueNumbers(v) && Ready(v, p) && InLevel(v, l, f)
    ensures f.number in InputNumbers(v, p) <==> Selected(v, p, l, f)
  {
    if Selected(v, p, l, f) {
      assert f in B.Files(p.in0) || f in B.Files(In1(v, p));
    }
    if f.number in InputNumbers(v, p) {
      if g :| g in B.Files(p.in0) && g.number == f.number {
        SameFile(v, l, f, p.level, g);
      } else {
        var g :| g in B.Files(In1(v, p)) && g.number == f.number;
        assert g in v.levels[p.level + 1];
        SameFile(v, l, f, p.level + 1, g);
      }
    }
  }

  /** The outputs have numbers under which the disk has no table. */
  ghost predicate NewTables(d: D.Disk, outs: seq<File>) {
    DistinctNumbers(outs) && forall o :: o in outs ==> o.number !in d.tables
  }

  lemma NewTablesFresh(d: D.Disk, v: Version, p: Plan, outs: seq<File>)
    requires Mirrors(d, v) && Ready(v, p) && NewTables(d, outs)
    ensures FreshOuts(v, p, outs)
  {
  }

  lemma OutTable(outs: seq<File>, o: File)
    requires DistinctNumbers(outs) && o in outs
    ensures o.number in TablesOf(outs, |outs|) && TablesOf(outs, |outs|)[o.number] == FileElems(o)
  {
    TablesAre(outs, |outs|);
    var i :| 0 <= i < |outs| && outs[i] == o;
  }

  lemma TableOut(outs: seq<File>, n: nat) returns (o: File)
    requires DistinctNumbers(outs) && n in TablesOf(outs, |outs|)
    ensures o in outs && o.number == n
  {
    TablesAre(outs, |outs|);
    var i :| 0 <= i < |outs| && outs[i].number == n;
    o := outs[i];
  }

  lemma CompactFiles(d: D.Disk, v: Version, p: Plan, outs: seq<File>, l: nat, f: File)
    requires WellFormed(v) && Mirrors(d, v) && Ready(v, p) && NewTables(d, outs) && InLevel(Installed(v, p, outs), l, f)
    ensures var d' := D.Compacted(d, InputNumbers(v, p), TablesOf(outs, |outs|));
            f.number in d'.live && f.number in d'.tables && d'.tables[f.number] == FileElems(f)
  {
    InstalledFilesExactly(v, p, outs, l, f);
    if f in outs {
      OutTable(outs, f);
    } else {
      InputNumber(v, p, l, f);
      if f.number in TablesOf(outs, |outs|) { var o := TableOut(outs, f.number); }
    }
  }

  lemma CompactNamed(d: D.Disk, v: Version, p: Plan, outs: seq<File>, n: nat)
    requires WellFormed(v) && Mirrors(d, v) && Ready(v, p) && NewTables(d, outs)
    requires n in D.Compacted(d, InputNumbers(v, p), TablesOf(outs, |outs|)).live
    ensures Named(Installed(v, p, outs), n)
  {
    if n in TablesOf(outs, |outs|) {
      var o := TableOut(outs, n);
      InstalledFilesExactly(v, p, outs, p.level + 1, o);
    } else {
      assert Named(v, n);
      var l, f :| InLevel(v, l, f) && f.number == n;
      InputNumber(v, p, l, f);
      InstalledFilesExactly(v, p, outs, l, f);
    }
  }

  /** Taking the inputs off the manifest and adding the outputs is installing them. */
  lemma CompactMirrors(d: D.Disk, v: Version, p: Plan, outs: seq<File>)
    requires WellFormed(v) && Mirrors(d, v) && Ready(v, p) && NewTables(d, outs)
    ensures Mirrors(D.Compacted(d, InputNumbers(v, p), TablesOf(outs, |outs|)), Installed(v, p, outs))
  {
    NewTablesFresh(d, v, p, outs);
    InstalledUnique(v, p, outs);
    var d', w := D.Compacted(d, InputNumbers(v, p), TablesOf(outs, |outs|)), Installed(v, p, outs);
    forall l, f | InLevel(w, l, f) ensures f.number in d'.live && f.number in d'.tables && d'.tables[f.number] == FileElems(f) {
      CompactFiles(d, v, p, outs, l, f);
    }
    forall n | n in d'.live ensures Named(w, n) {
      CompactNamed(d, v, p, outs, n);
    }
  }

  /** The outputs are what the drop loop keeps of the inputs, and no marker is torn. */
  ghost predicate Compacts(v: Version, p: Plan, input: seq<Entry>, outs: seq<File>, smallest: nat) {
    && Ready(v, p) && Merged(v, p, input) && SortedLevel(outs)
    && FilesElems(outs) == KeptElems(v, p.level, smallest, input) && !Torn(v, p, smallest, input)
  }

  /** What the engine's compaction installs, on a version that may have received flushes
      since it started, is of this kind. */
  lemma FinishCompacts(d: Engine.Db, outs: seq<File>)
    requires Engine.Inv(d) && Engine.Enabled(d, Engine.FinishCompaction(outs))
    requires !EngineRuns.Tears(d, Engine.FinishCompaction(outs))
    ensures Compacts(d.version, d.job.plan, d.job.input, outs, d.job.smallestSnapshot)
  {
    var j := d.job;
    EngineRuns.KeptSame(j.base, d.version, j.plan.level, j.smallestSnapshot, j.input, |j.input|);
  }

  /** To the version it is a step that no reader can notice. */
  lemma CompactKeepsReads(v: Version, p: Plan, input: seq<Entry>, outs: seq<File>, smallest: nat)
    requires WellFormed(v) && Compacts(v, p, input, outs, smallest)
    ensures WellFormed(Installed(v, p, outs))
    ensures D.Drops(VersionElems(v), VersionElems(Installed(v, p, outs)), smallest)
  {
    CompactionExact(v, p, smallest, input, outs);
    InstalledElems(v, p, outs);
    ElemsSplit(v, p, input);
    KeptSubset(v, p.level, smallest, input);
  }

  /** So the disk machine allows it. */
  lemma CompactDrops(d: D.Disk, v: Version, p: Plan, input: seq<Entry>, outs: seq<File>, smallest: nat)
    requires WellFormed(v) && Mirrors(d, v) && NewTables(d, outs) && Compacts(v, p, input, outs, smallest)
    ensures WellFormed(Installed(v, p, outs))
    ensures D.Drops(D.Present(d), D.Present(D.Compacted(d, InputNumbers(v, p), TablesOf(outs, |outs|))), smallest)
  {
    CompactKeepsReads(v, p, input, outs, smallest);
    CompactPresent(d, v, p, outs);
  }

  lemma CompactPresent(d: D.Disk, v: Version, p: Plan, outs: seq<File>)
    requires WellFormed(v) && Mirrors(d, v) && NewTables(d, outs) && Ready(v, p)
    ensures D.Present(d) == VersionElems(v)
    ensures D.Present(D.Compacted(d, InputNumbers(v, p), TablesOf(outs, |outs|))) == VersionElems(Installed(v, p, outs))
  {
    CompactMirrors(d, v, p, outs);
    MirrorPresent(d, v);
    MirrorPresent(D.Compacted(d, InputNumbers(v, p), TablesOf(outs, |outs|)), Installed(v, p, outs));
  }

  /** A moved file changes its level and nothing else. */
  lemma MoveMirrors(d: D.Disk, v: Version, p: Plan)
    requires WellFormed(v) && Mirrors(d, v) && Ready(v, p) && p.lo == p.hi && |p.in0| == 1
    ensures Mirrors(d, Installed(v, p, p.in0)) && WellFormed(Installed(v, p, p.in0))
  {
    var w := Installed(v, p, p.in0);
    EngineRuns.MoveShape(v, p);
    MoveFresh(v, p);
    InstalledUnique(v, p, p.in0);
    forall l, f | InLevel(w, l, f) ensures f.number in d.live && f.number in d.tables && d.tables[f.number] == FileElems(f) {
      InstalledFilesExactly(v, p, p.in0, l, f);
      if f in p.in0 { assert InLevel(v, p.level, f); }
    }
    forall n | n in d.live ensures Named(w, n) {
      assert Named(v, n);
      var l, f :| InLevel(v, l, f) && f.number == n;
      InstalledFilesExactly(v, p, p.in0, l, f);
      if Selected(v, p, l, f) { InstalledFilesExactly(v, p, p.in0, p.level + 1, f); }
    }
  }

  // ----- the machine -----

  /** The disk machine and the version its manifest describes. */
  datatype Store = Store(db: D.Db, v: Version)

  datatype Step =
    | Plain(step: D.Step)
    | Commit(file: File, level0: seq<File>)             // the flushed table
    | Compact(p: Plan, input: seq<Entry>, outs: seq<File>, smallest: nat, next: nat)
    | Move(p: Plan)
    | Open(files: seq<File>, level0: seq<File>)         // the tables of a recovery

  /** A file's table is on the disk. */
  ghost predicate Backed(d: D.Disk, f: File) {
    f.Valid() && f.number in d.tables && d.tables[f.number] == FileElems(f)
  }

  ghost predicate Enabled(mod: nat, s: Store, step: Step) {
    match step
    case Plain(x) => D.Enabled(mod, s.db, x) && !x.CommitEdit? && !x.Compact? && !x.FinishOpen?
    case Commit(f, level0) =>
      && D.Enabled(mod, s.db, D.CommitEdit) && |s.v.levels| > 0
      && Backed(s.db.disk, f) && f.number == s.db.m.flush.number && Joined(s.v.levels[0], [f], level0)
    case Compact(p, input, outs, smallest, next) =>
      && s.db.Up? && s.db.m.flush.Idle? && smallest <= s.db.m.lastSequence
      && Compacts(s.v, p, input, outs, smallest) && NewTables(s.db.disk, outs)
      && s.db.m.nextFile <= next && forall o :: o in outs ==> o.number < next
    case Move(p) => s.db.Up? && s.db.m.flush.Idle? && Ready(s.v, p) && p.lo == p.hi && |p.in0| == 1
    case Open(fs, level0) =>
      && s.db.Opening? && |s.v.levels| > 0 && DistinctNumbers(fs) && B.Numbers(B.Files(fs)) == s.db.edit.added
      && (forall f :: f in fs ==> Backed(s.db.disk, f)) && Joined(s.v.levels[0], fs, level0)
  }

  /** What the step is to the disk machine. */
  ghost function DiskStep(mod: nat, s: Store, step: Step): D.Step
    requires Enabled(mod, s, step)
  {
    match step
    case Plain(x) => x
    case Commit(_, _) => D.CommitEdit
    case Compact(p, _, outs, smallest, next) => D.Compact(InputNumbers(s.v, p), TablesOf(outs, |outs|), smallest, next)
    case Move(p) => D.Compact({}, map[], 0, s.db.m.nextFile)
    case Open(_, _) => D.FinishOpen
  }

  ghost function NextVersion(mod: nat, s: Store, step: Step): Version
    requires Enabled(mod, s, step)
  {
    match step
    case Plain(_) => s.v
    case Commit(_, level0) => WithLevel0(s.v, level0)
    case Compact(p, _, outs, _, _) => Installed(s.v, p, outs)
    case Move(p) => Installed(s.v, p, p.in0)
    case Open(_, level0) => WithLevel0(s.v, level0)
  }

  ghost predicate DiskInv(mod: nat, db: D.Db) {
    D.Inv(mod, db) && D.Faded(db.disk) && Distinct(R.Universe(db))
  }

  ghost predicate Inv(mod: nat, s: Store) {
    DiskInv(mod, s.db) && WellFormed(s.v) && Listed(s.v) && Mirrors(s.db.disk, s.v)
  }

  ghost function Next(mod: nat, s: Store, step: Step): Store
    requires Enabled(mod, s, step) && D.Enabled(mod, s.db, DiskStep(mod, s, step))
  {
    Store(D.Apply(mod, s.db, DiskStep(mod, s, step)), NextVersion(mod, s, step))
  }

  // ----- the disk machine allows every step -----

  lemma InputsLive(d: D.Disk, v: Version, p: Plan)
    requires Mirrors(d, v) && Ready(v, p)
    ensures InputNumbers(v, p) <= d.live
  {
    forall n | n in InputNumbers(v, p) ensures n in d.live {
      if f :| f in B.Files(p.in0) && f.number == n {
        assert InLevel(v, p.level, f);
      } else {
        var f :| f in B.Files(In1(v, p)) && f.number == n;
        assert InLevel(v, p.level + 1, f);
      }
    }
  }

  lemma CompactAllowed(mod: nat, s: Store, step: Step)
    requires Inv(mod, s) && step.Compact? && Enabled(mod, s, step)
    ensures D.Enabled(mod, s.db, DiskStep(mod, s, step))
  {
    InputsLive(s.db.disk, s.v, step.p);
    CompactDrops(s.db.disk, s.v, step.p, step.input, step.outs, step.smallest);
    forall n | n in TablesOf(step.outs, |step.outs|) ensures n < step.next && n !in s.db.disk.tables {
      var o := TableOut(step.outs, n);
    }
  }

  lemma NothingCompacted(d: D.Disk)
    ensures D.Compacted(d, {}, map[]) == d
  {
    assert d.live - {} + {} == d.live;
    var none: map<nat, set<Entry>> := map[];
    assert d.tables + none == d.tables;
    assert none.Keys == {};
  }

  lemma Allowed(mod: nat, s: Store, step: Step)
    requires Inv(mod, s) && Enabled(mod, s, step)
    ensures D.Enabled(mod, s.db, DiskStep(mod, s, step))
  {
    if step.Compact? {
      CompactAllowed(mod, s, step);
    } else if step.Move? {
      NothingCompacted(s.db.disk);
    }
  }

  // ----- and keeps the version in step with the disk -----

  lemma MirrorsSame(d: D.Disk, v: Version, d': D.Disk)
    requires Mirrors(d, v) && d'.live == d.live
    requires forall n :: n in d.live && n in d.tables ==> n in d'.tables && d'.tables[n] == d.tables[n]
    ensures Mirrors(d', v)
  {
  }

  /** Only commits and compactions change what is live. */
  lemma LiveTablesStay(mod: nat, db: D.Db, x: D.Step)
    requires D.DiskOk(db.disk) && (db.Up? ==> db.disk.nextFile <= db.m.nextFile)
    requires D.Enabled(mod, db, x) && !x.CommitEdit? && !x.Compact? && !x.FinishOpen?
    ensures var d, d' := db.disk, D.Apply(mod, db, x).disk;
            && d'.live == d.live
            && forall n :: n in d.live && n in d.tables ==> n in d'.tables && d'.tables[n] == d.tables[n]
  {
  }

  lemma PlainMirrors(mod: nat, s: Store, x: D.Step)
    requires Inv(mod, s) && Enabled(mod, s, Plain(x))
    ensures Mirrors(D.Apply(mod, s.db, x).disk, s.v)
  {
    LiveTablesStay(mod, s.db, x);
    MirrorsSame(s.db.disk, s.v, D.Apply(mod, s.db, x).disk);
  }

  /** A file of newer entries, with a number above those in use. */
  lemma AboveAll(d: D.Disk, v: Version, f: File, l: nat, g: File)
    requires Mirrors(d, v) && D.Older(D.LiveEntries(d), FileElems(f)) && InLevel(v, l, g)
    requires forall n :: n in d.live ==> n < f.number
    ensures Newer(f, g) && g.number < f.number
  {
    forall e, h | e in f.entries && h in g.entries ensures e.ik.sn > h.ik.sn {
      assert e in FileElems(f) && h in FileElems(g);
      assert h in D.Present(d);
    }
  }

  /** The flushed table is newer than the live ones and has a larger number. */
  lemma FlushedTable(mod: nat, db: D.Db)
    requires D.Inv(mod, db) && D.Enabled(mod, db, D.CommitEdit)
    ensures var d, d', n := db.disk, D.Apply(mod, db, D.CommitEdit).disk, db.m.flush.number;
            && n in d.tables && D.Older(D.LiveEntries(d), d.tables[n]) && (forall k :: k in d.live ==> k < n)
            && d'.live == d.live + {n} && d'.tables == d.tables
  {
  }

  lemma CommitNew(d: D.Disk, v: Version, f: File)
    requires Mirrors(d, v) && Backed(d, f) && D.Older(D.LiveEntries(d), d.tables[f.number])
    requires forall n :: n in d.live ==> n < f.number
    ensures NewFiles(v, [f])
  {
    forall l, g | InLevel(v, l, g) ensures Newer(f, g) && g.number < f.number {
      AboveAll(d, v, f, l, g);
    }
  }

  lemma CommitMirrors(mod: nat, s: Store, f: File, level0: seq<File>)
    requires Inv(mod, s) && Enabled(mod, s, Commit(f, level0))
    ensures WellFormed(WithLevel0(s.v, level0))
    ensures Mirrors(D.Apply(mod, s.db, D.CommitEdit).disk, WithLevel0(s.v, level0))
  {
    FlushedTable(mod, s.db);
    CommitJoins(s.db.disk, s.v, f, level0, D.Apply(mod, s.db, D.CommitEdit).disk);
  }

  lemma CommitJoins(d: D.Disk, v: Version, f: File, level0: seq<File>, d': D.Disk)
    requires WellFormed(v) && Mirrors(d, v) && Backed(d, f) && Joined(v.levels[0], [f], level0)
    requires D.Older(D.LiveEntries(d), d.tables[f.number]) && forall n :: n in d.live ==> n < f.number
    requires d'.live == d.live + {f.number} && d'.tables == d.tables
    ensures WellFormed(WithLevel0(v, level0)) && Mirrors(d', WithLevel0(v, level0))
  {
    CommitNew(d, v, f);
    JoinedShape(v, [f], level0);
    assert B.Files([f]) == {f} && B.Numbers({f}) == {f.number};
    JoinedMirrors(d, v, [f], level0, d');
  }

  /** The files are those of the recovered tables. */
  ghost predicate Recovered(d: D.Disk, e: D.Edit, fs: seq<File>) {
    && DistinctNumbers(fs) && (forall f :: f in fs ==> Backed(d, f) && f.number in e.added)
    && D.Aged(e.added, d.tables)
  }

  lemma RecoveredOrder(d: D.Disk, e: D.Edit, fs: seq<File>, f: File, g: File)
    requires Recovered(d, e, fs) && f in fs && g in fs
    ensures f.number > g.number ==> Newer(f, g)
    ensures f.number == g.number ==> f == g
  {
    if f.number == g.number {
      var i :| 0 <= i < |fs| && fs[i] == f;
      var j :| 0 <= j < |fs| && fs[j] == g;
    } else if f.number > g.number {
      assert D.Older(d.tables[g.number], d.tables[f.number]);
      forall x, h | x in f.entries && h in g.entries ensures x.ik.sn > h.ik.sn {
        assert x in FileElems(f) && h in FileElems(g);
      }
    }
  }

  /** Recovered tables: newer than the tables there were, and in the order of their numbers. */
  lemma OpenNew(d: D.Disk, e: D.Edit, v: Version, fs: seq<File>)
    requires Mirrors(d, v) && Recovered(d, e, fs)
    requires forall f :: f in fs ==> D.Older(D.LiveEntries(d), FileElems(f))
    requires forall n, k :: n in d.live && k in e.added ==> n < k
    ensures NewFiles(v, fs)
  {
    forall f, l, g | f in fs && InLevel(v, l, g) ensures Newer(f, g) && g.number < f.number {
      AboveAll(d, v, f, l, g);
    }
    forall f, g | f in fs && g in fs ensures (f.number > g.number ==> Newer(f, g)) && (f.number == g.number ==> f == g) {
      RecoveredOrder(d, e, fs, f, g);
    }
  }

  lemma OpenTables(mod: nat, db: D.Db, f: File)
    requires D.Inv(mod, db) && db.Opening? && Backed(db.disk, f) && f.number in db.edit.added
    ensures D.Older(D.LiveEntries(db.disk), FileElems(f))
  {
    assert FileElems(f) <= D.LogEntries(db.disk);
  }

  lemma OpenFiles(mod: nat, s: Store, fs: seq<File>, level0: seq<File>)
    requires Inv(mod, s) && Enabled(mod, s, Open(fs, level0))
    ensures NewFiles(s.v, fs)
  {
    forall f | f in fs ensures f.number in s.db.edit.added && D.Older(D.LiveEntries(s.db.disk), FileElems(f)) {
      assert f in B.Files(fs);
      OpenTables(mod, s.db, f);
    }
    OpenNew(s.db.disk, s.db.edit, s.v, fs);
  }

  lemma OpenMirrors(mod: nat, s: Store, fs: seq<File>, level0: seq<File>)
    requires Inv(mod, s) && Enabled(mod, s, Open(fs, level0))
    ensures WellFormed(WithLevel0(s.v, level0))
    ensures Mirrors(D.Apply(mod, s.db, D.FinishOpen).disk, WithLevel0(s.v, level0))
  {
    OpenFiles(mod, s, fs, level0);
    JoinedShape(s.v, fs, level0);
    JoinedMirrors(s.db.disk, s.v, fs, level0, D.Apply(mod, s.db, D.FinishOpen).disk);
  }

  lemma ApplyCompact(mod: nat, db: D.Db, x: D.Step)
    requires x.Compact? && D.Enabled(mod, db, x)
    ensures var d' := D.Apply(mod, db, x).disk;
            && d'.live == D.Compacted(db.disk, x.removed, x.added).live
            && d'.tables == D.Compacted(db.disk, x.removed, x.added).tables
  {
  }

  lemma CompactedMirrors(mod: nat, s: Store, step: Step)
    requires Inv(mod, s) && Enabled(mod, s, step) && step.Compact? && D.Enabled(mod, s.db, DiskStep(mod, s, step))
    ensures WellFormed(NextVersion(mod, s, step)) && Mirrors(Next(mod, s, step).db.disk, NextVersion(mod, s, step))
  {
    ApplyCompact(mod, s.db, DiskStep(mod, s, step));
    CompactJoins(s.db.disk, s.v, step.p, step.input, step.outs, step.smallest, Next(mod, s, step).db.disk);
  }

  lemma CompactJoins(d: D.Disk, v: Version, p: Plan, input: seq<Entry>, outs: seq<File>, smallest: nat, d': D.Disk)
    requires WellFormed(v) && Mirrors(d, v) && NewTables(d, outs) && Compacts(v, p, input, outs, smallest)
    requires d'.live == D.Compacted(d, InputNumbers(v, p), TablesOf(outs, |outs|)).live
    requires d'.tables == D.Compacted(d, InputNumbers(v, p), TablesOf(outs, |outs|)).tables
    ensures WellFormed(Installed(v, p, outs)) && Mirrors(d', Installed(v, p, outs))
  {
    CompactDrops(d, v, p, input, outs, smallest);
    CompactMirrors(d, v, p, outs);
    MirrorsSame(D.Compacted(d, InputNumbers(v, p), TablesOf(outs, |outs|)), Installed(v, p, outs), d');
  }

  lemma MovedMirrors(mod: nat, s: Store, p: Plan)
    requires Inv(mod, s) && Enabled(mod, s, Move(p)) && D.Enabled(mod, s.db, DiskStep(mod, s, Move(p)))
    ensures WellFormed(Installed(s.v, p, p.in0)) && Mirrors(Next(mod, s, Move(p)).db.disk, Installed(s.v, p, p.in0))
  {
    NothingCompacted(s.db.disk);
    MoveMirrors(s.db.disk, s.v, p);
    MirrorsSame(s.db.disk, Installed(s.v, p, p.in0), Next(mod, s, Move(p)).db.disk);
  }

  lemma VersionKept(mod: nat, s: Store, step: Step)
    requires Inv(mod, s) && Enabled(mod, s, step) && D.Enabled(mod, s.db, DiskStep(mod, s, step))
    ensures WellFormed(NextVersion(mod, s, step)) && Mirrors(Next(mod, s, step).db.disk, NextVersion(mod, s, step))
  {
    match step
    case Plain(x) => PlainMirrors(mod, s, x);
    case Commit(f, level0) => CommitMirrors(mod, s, f, level0);
    case Compact(_, _, _, _, _) => CompactedMirrors(mod, s, step);
    case Move(p) => MovedMirrors(mod, s, p);
    case Open(fs, level0) => OpenMirrors(mod, s, fs, level0);
  }

  /** Level 0 stays in the order of the Builder. */
  lemma ListedKept(mod: nat, s: Store, step: Step)
    requires WellFormed(s.v) && Listed(s.v) && Enabled(mod, s, step)
    ensures Listed(NextVersion(mod, s, step))
  {
    if step.Compact? {
      InstalledListed(s.v, step.p, step.outs);
    } else if step.Move? {
      InstalledListed(s.v, step.p, step.p.in0);
    }
  }

  lemma DiskStepKeeps(mod: nat, db: D.Db, x: D.Step)
    requires DiskInv(mod, db) && D.Enabled(mod, db, x)
    ensures DiskInv(mod, D.Apply(mod, db, x))
  {
    R.StepKeeps(mod, db, x);
    R.FadedStep(mod, db, x);
    R.DistinctStep(mod, db, x);
  }

  lemma StepKeeps(mod: nat, s: Store, step: Step)
    requires Inv(mod, s) && Enabled(mod, s, step)
    ensures D.Enabled(mod, s.db, DiskStep(mod, s, step)) && Inv(mod, Next(mod, s, step))
  {
    Allowed(mod, s, step);
    VersionKept(mod, s, step);
    ListedKept(mod, s, step);
    DiskStepKeeps(mod, s.db, DiskStep(mod, s, step));
  }

  // ----- runs -----

  const EMPTY: Version := Version([[], [], [], [], [], [], []])

  ghost predicate Taken(mod: nat, s: Store, step: Step, s': Store) {
    Enabled(mod, s, step) && (D.Enabled(mod, s.db, DiskStep(mod, s, step)) ==> s' == Next(mod, s, step))
  }

  /** A run from a new database: every compaction is one of the drop loop, none tears. */
  ghost predicate Trace(mod: nat, ss: seq<Store>, steps: seq<Step>) {
    && |ss| == |steps| + 1 && ss[0] == Store(D.Fresh(), EMPTY)
    && forall i :: 0 <= i < |steps| ==> Taken(mod, ss[i], steps[i], ss[i + 1])
  }

  lemma FreshStore(mod: nat)
    ensures Inv(mod, Store(D.Fresh(), EMPTY))
  {
    R.FreshOk(mod);
    assert forall l: nat, f :: !InLevel(EMPTY, l, f);
  }

  lemma TakenKeeps(mod: nat, s: Store, step: Step, s': Store)
    requires Inv(mod, s) && Taken(mod, s, step, s')
    ensures Inv(mod, s') && D.Enabled(mod, s.db, DiskStep(mod, s, step))
  {
    StepKeeps(mod, s, step);
  }

  lemma {:induction false} Lasts(good: seq<bool>, i: nat)
    requires i < |good| && good[0] && forall k :: 0 <= k < |good| - 1 && good[k] ==> good[k + 1]
    ensures good[i]
  {
    if i > 0 { Lasts(good, i - 1); }
  }

  lemma InvAt(mod: nat, ss: seq<Store>, steps: seq<Step>, i: nat)
    requires Trace(mod, ss, steps) && i < |ss|
    ensures Inv(mod, ss[i])
  {
    var good := seq(|ss|, k requires 0 <= k < |ss| => Inv(mod, ss[k]));
    FreshStore(mod);
    forall k | 0 <= k < |good| - 1 && good[k] ensures good[k + 1] {
      TakenKeeps(mod, ss[k], steps[k], ss[k + 1]);
    }
    Lasts(good, i);
  }

  /** In every reachable state the live tables form a well-formed version, and every step
      taken was one of the disk machine. */
  lemma RunsKeep(mod: nat, ss: seq<Store>, steps: seq<Step>, i: nat)
    requires Trace(mod, ss, steps) && i < |ss|
    ensures Inv(mod, ss[i])
    ensures i < |steps| ==> Taken(mod, ss[i], steps[i], ss[i + 1]) && D.Enabled(mod, ss[i].db, DiskStep(mod, ss[i], steps[i]))
  {
    InvAt(mod, ss, steps, i);
    if i < |steps| { TakenKeeps(mod, ss[i], steps[i], ss[i + 1]); }
  }

  // ----- nothing is left out -----

  lemma {:induction false} SortFiles(S: set<File>) returns (fs: seq<File>)
    requires forall f, g :: f in S && g in S && f.number == g.number ==> f == g
    ensures B.Ordered(fs) && B.Files(fs) == S
  {
    if S == {} {
      fs := [];
    } else {
      var f :| f in S;
      var rest := SortFiles(S - {f});
      assert forall g :: g in rest ==> g in B.Files(rest);
      var i := PlaceFor(rest, f);
      B.InsertKeeps(rest, f, i);
      fs := rest[..i] + [f] + rest[i..];
    }
  }

  lemma {:induction false} PlaceFor(fs: seq<File>, f: File) returns (i: nat)
    requires B.Ordered(fs) && forall g :: g in fs ==> g.number != f.number
    ensures i <= |fs| && (i > 0 ==> B.Before(fs[i - 1], f)) && forall j :: i <= j < |fs| ==> B.Before(f, fs[j])
  {
    i := |fs|;
    while i > 0 && B.Before(f, fs[i - 1])
      invariant 0 <= i <= |fs| && forall j :: i <= j < |fs| ==> B.Before(f, fs[j])
    {
      i := i - 1;
    }
    if i > 0 {
      B.BeforeTotal(fs[i - 1], f);
      assert fs[i - 1] in fs;
    }
  }

  /** A Builder can always add such files. */
  lemma CanJoin(v: Version, fs: seq<File>) returns (level0: seq<File>)
    requires WellFormed(v) && NewFiles(v, fs)
    ensures Joined(v.levels[0], fs, level0)
  {
    var S := B.Files(v.levels[0]) + B.Files(fs);
    forall f, g | f in S && g in S && f.number == g.number ensures f == g {
      assert f in v.levels[0] ==> InLevel(v, 0, f);
      assert g in v.levels[0] ==> InLevel(v, 0, g);
      if f in v.levels[0] && g in v.levels[0] {
        var i :| 0 <= i < |v.levels[0]| && v.levels[0][i] == f;
        var j :| 0 <= j < |v.levels[0]| && v.levels[0][j] == g;
      }
    }
    level0 := SortFiles(S);
  }

  lemma FileFor(d: D.Disk, n: nat) returns (f: File)
    requires n in d.tables && d.tables[n] != {} && Distinct(d.tables[n])
    ensures Backed(d, f) && f.number == n
  {
    var es := Compaction.SortSet(d.tables[n]);
    assert es != [];
    f := ToFile(n, 0, es);
    ToFileValid(n, 0, es);
  }

  lemma {:induction false} FilesFor(d: D.Disk, ns: set<nat>) returns (fs: seq<File>)
    requires forall n :: n in ns ==> n in d.tables && d.tables[n] != {} && Distinct(d.tables[n])
    ensures DistinctNumbers(fs) && B.Numbers(B.Files(fs)) == ns && forall f :: f in fs ==> Backed(d, f)
  {
    if ns == {} {
      fs := [];
    } else {
      var n :| n in ns;
      var rest := FilesFor(d, ns - {n});
      var f := FileFor(d, n);
      forall g | g in rest ensures g.number in ns - {n} { assert g in B.Files(rest); }
      fs := rest + [f];
      assert B.Files(fs) == B.Files(rest) + {f};
      assert B.Numbers(B.Files(rest) + {f}) == B.Numbers(B.Files(rest)) + {n};
    }
  }

  /** Whenever a flush can be committed, so it can here. */
  lemma CanCommit(mod: nat, s: Store) returns (f: File, level0: seq<File>)
    requires Inv(mod, s) && D.Enabled(mod, s.db, D.CommitEdit)
    ensures Enabled(mod, s, Commit(f, level0))
  {
    var d, n := s.db.disk, s.db.m.flush.number;
    FlushedTable(mod, s.db);
    R.DistinctSubset(d.tables[n], R.Universe(s.db));
    f := FileFor(d, n);
    CommitNew(d, s.v, f);
    level0 := CanJoin(s.v, [f]);
  }

  /** Whatever tables a recovery has written, the database opens on them. */
  lemma CanOpen(mod: nat, s: Store) returns (fs: seq<File>, level0: seq<File>)
    requires Inv(mod, s) && s.db.Opening?
    ensures Enabled(mod, s, Open(fs, level0))
  {
    var d, e := s.db.disk, s.db.edit;
    forall n | n in e.added ensures n in d.tables && d.tables[n] != {} && Distinct(d.tables[n]) {
      R.DistinctSubset(d.tables[n], R.Universe(s.db));
    }
    fs := FilesFor(d, e.added);
    forall f | f in fs ensures f.number in e.added && D.Older(D.LiveEntries(d), FileElems(f)) {
      assert f in B.Files(fs);
      OpenTables(mod, s.db, f);
    }
    OpenNew(d, e, s.v, fs);
    level0 := CanJoin(s.v, fs);
  }

  // ----- reading -----

  ghost function ImmEntries(m: D.Memory): set<Entry> {
    if m.imm.Some? then D.EntriesOf(m.imm.value) else {}
  }

  /** Entries held twice do not matter. */
  lemma Beneath(I: set<Entry>, V: set<Entry>, k: UserKey, sn: nat)
    requires Distinct(I + V) && forall e, h :: e in I && h in V - I && e.ik.user == h.ik.user ==> e.ik.sn > h.ik.sn
    ensures Look(I, k, sn).Missing? ==> Look(V - I, k, sn) == Look(V, k, sn)
  {
    if Look(I, k, sn).Missing? {
      R.DistinctSubset(I, I + V);
      R.DistinctSubset(V, I + V);
      R.DistinctSubset(V - I, I + V);
      forall e | e in I ensures !Covers(e, k, sn) {
        if Covers(e, k, sn) {
          var m := NewestExists(I, k, sn, e);
          LookIs(I, k, sn, m);
        }
      }
      LookSame(V - I, sn, V, sn, k);
    }
  }

  /** Memtable over immutable memtable over tables. While the table of the immutable
      memtable is already live, its entries are in both. */
  lemma ThreeLayers(M: set<Entry>, I: set<Entry>, V: set<Entry>, k: UserKey, sn: nat)
    requires Distinct(M + (I + V)) && D.Older(I + V, M) && D.Older(V - I, I)
    ensures Look(M + (I + V), k, sn) ==
            var m, i := Look(M, k, sn), Look(I, k, sn);
            if !m.Missing? then m else if !i.Missing? then i else Look(V, k, sn)
  {
    R.DistinctSubset(M, M + (I + V));
    R.DistinctSubset(I + V, M + (I + V));
    R.DistinctSubset(I, I + V);
    R.DistinctSubset(V - I, I + V);
    LookLayered(I, V - I, k, sn);
    assert I + (V - I) == I + V;
    LookLayered(M, I + V, k, sn);
    Beneath(I, V, k, sn);
  }

  lemma LayersOf(mod: nat, db: D.Db)
    requires DiskInv(mod, db) && db.Up?
    ensures var M, I, V := D.EntriesOf(db.m.mem), ImmEntries(db.m), D.Present(db.disk);
            && D.Actual(db) == M + (I + V) && Distinct(M + (I + V))
            && D.Older(I + V, M) && D.Older(V - I, I)
  {
    var M, I, V := D.EntriesOf(db.m.mem), ImmEntries(db.m), D.Present(db.disk);
    R.DistinctSubset(M + (I + V), R.Universe(db));
  }

  /** DBImpl::Get on an open database, whatever crashes, recoveries, flushes and
      compactions it has been through: at the horizon of its compactions or later it
      answers from all the entries it was ever given and kept. */
  method Get(mod: nat, s: Store, mem: seq<Entry>, imm: seq<Entry>, k: UserKey, sn: nat) returns (o: Outcome)
    requires Inv(mod, s) && s.db.Up? && s.db.disk.horizon <= sn
    requires Sorted(mem) && Elems(mem) == D.EntriesOf(s.db.m.mem) && Sorted(imm) && Elems(imm) == ImmEntries(s.db.m)
    ensures Visible(o) == Visible(Look(D.View(s.db), k, sn))
  {
    var m := File(0, 0, IKey(0, 0), IKey(0, 0), mem);
    var i := File(0, 0, IKey(0, 0), IKey(0, 0), imm);
    R.ReadsAreRight(mod, s.db);
    LayersOf(mod, s.db);
    MirrorPresent(s.db.disk, s.v);
    ThreeLayers(Elems(mem), Elems(imm), VersionElems(s.v), k, sn);
    Engine.SeekIsLook(m, k, sn);
    Engine.SeekIsLook(i, k, sn);
    o := TableGet(m, k, sn);
    if !o.Missing? { return; }
    o := TableGet(i, k, sn);
    if !o.Missing? { return; }
    o := VersionGet.Get(s.v, k, sn);
  }
}
