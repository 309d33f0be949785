/** Every step of the engine keeps its invariant; every run reads right. */
module EngineRuns {
  import opened InternalKeys
  import opened Versions
  import opened Drop
  import opened DropView
  import opened Install
  import opened CompactionView
  import opened Merge
  import opened FileNumbers
  import opened Engine
  import VersionGet

  lemma SameViewLater(S: set<Entry>, T: set<Entry>, t: nat, t': nat)
    requires SameView(S, T, t) && t <= t'
    ensures SameView(S, T, t')
  {
  }

  lemma SameViewChain(S: set<Entry>, T: set<Entry>, U: set<Entry>, t: nat)
    requires SameView(S, T, t) && SameView(T, U, t)
    ensures SameView(S, U, t)
  {
  }

  // ----- writes, switches, snapshots -----

  lemma WriteKeeps(d: Db, batch: seq<Entry>)
    requires Inv(d) && Enabled(d, Write(batch))
    ensures Inv(Apply(d, Write(batch)))
    ensures History(Apply(d, Write(batch))) == History(d) + Elems(batch)
  {
    var d' := Apply(d, Write(batch));
    assert FreshKeys(d.mem, batch) by {
      forall x, y | x in d.mem && y in batch ensures x.ik != y.ik {
        assert x in Elems(d.mem);
      }
    }
    InsertAllSorted(d.mem, batch);
    assert Elems(d'.mem) == Elems(d.mem) + Elems(batch);
    SameViewLater(VersionElems(d.version), d.flushed, Oldest(d), Oldest(d'));
  }

  lemma SwitchKeeps(d: Db)
    requires Inv(d) && Enabled(d, Switch)
    ensures Inv(Apply(d, Switch)) && History(Apply(d, Switch)) == History(d)
  {
  }

  lemma TakeSnapshotKeeps(d: Db)
    requires Inv(d)
    ensures Inv(Apply(d, TakeSnapshot)) && History(Apply(d, TakeSnapshot)) == History(d)
  {
    var d' := Apply(d, TakeSnapshot);
    assert Oldest(d') == Oldest(d);
  }

  lemma ReleaseSnapshotKeeps(d: Db, i: nat)
    requires Inv(d) && i < |d.snapshots|
    ensures Inv(Apply(d, ReleaseSnapshot(i))) && History(Apply(d, ReleaseSnapshot(i))) == History(d)
  {
    var d' := Apply(d, ReleaseSnapshot(i));
    assert Oldest(d) <= Oldest(d');
    SameViewLater(VersionElems(d.version), d.flushed, Oldest(d), Oldest(d'));
  }

  // ----- flush -----

  lemma FlushFiles(v: Version, f: File, pos: nat, l: nat, g: File)
    requires |v.levels| > 0 && pos <= |v.levels[0]|
    ensures InLevel(AddLevel0(v, f, pos), l, g) <==> InLevel(v, l, g) || (l == 0 && g == f)
  {
    assert v.levels[0] == v.levels[0][..pos] + v.levels[0][pos..];
  }

  lemma FlushElems(v: Version, f: File, pos: nat)
    requires |v.levels| > 0 && pos <= |v.levels[0]|
    ensures VersionElems(AddLevel0(v, f, pos)) == VersionElems(v) + FileElems(f)
  {
    var w := AddLevel0(v, f, pos);
    forall e | e in VersionElems(w) ensures e in VersionElems(v) + FileElems(f) {
      var l, g :| 0 <= l < |w.levels| && g in w.levels[l] && e in g.entries;
      FlushFiles(v, f, pos, l, g);
    }
    forall e | e in VersionElems(v) + FileElems(f) ensures e in VersionElems(w) {
      if e in VersionElems(v) {
        var l, g :| 0 <= l < |v.levels| && g in v.levels[l] && e in g.entries;
        FlushFiles(v, f, pos, l, g);
      } else {
        FlushFiles(v, f, pos, 0, f);
      }
    }
  }

  /** f holds only newer entries than all tables, and a larger number. */
  ghost predicate Fresh(v: Version, f: File) {
    && f.Valid()
    && (forall g :: InLevel(v, 0, g) ==> g.number < f.number)
    && (forall l, g :: InLevel(v, l, g) ==> Newer(f, g))
  }

  lemma FlushLevel0(v: Version, f: File, pos: nat)
    requires WellFormed(v) && pos <= |v.levels[0]| && Fresh(v, f)
    ensures OrderedLevel0(AddLevel0(v, f, pos).levels[0])
  {
    var l0 := AddLevel0(v, f, pos).levels[0];
    assert DistinctNumbers(l0) by {
      assert forall i :: 0 <= i < |v.levels[0]| ==> InLevel(v, 0, v.levels[0][i]);
    }
    forall g, h | g in l0 && h in l0 && g.number > h.number ensures Newer(g, h) {
      FlushFiles(v, f, pos, 0, g);
      FlushFiles(v, f, pos, 0, h);
    }
  }

  lemma FlushShape(v: Version, f: File, pos: nat)
    requires WellFormed(v) && pos <= |v.levels[0]| && Fresh(v, f)
    ensures WellFormed(AddLevel0(v, f, pos))
  {
    var w := AddLevel0(v, f, pos);
    FlushLevel0(v, f, pos);
    forall i, j, g, h | 0 <= i < j && InLevel(w, i, g) && InLevel(w, j, h) ensures Newer(g, h) {
      FlushFiles(v, f, pos, i, g);
      FlushFiles(v, f, pos, j, h);
    }
  }

  lemma FlushKeepsReady(v: Version, f: File, pos: nat, p: Plan)
    requires WellFormed(v) && pos <= |v.levels[0]| && Fresh(v, f) && Ready(v, p)
    ensures Ready(AddLevel0(v, f, pos), p)
    ensures In1(AddLevel0(v, f, pos), p) == In1(v, p)
  {
    var w := AddLevel0(v, f, pos);
    forall g | g in w.levels[p.level] ensures g in v.levels[p.level] || (p.level == 0 && g == f) {
      FlushFiles(v, f, pos, p.level, g);
    }
    forall g | g in p.in0 ensures g in w.levels[p.level] && Newer(f, g) {
      FlushFiles(v, f, pos, p.level, g);
      assert InLevel(v, p.level, g);
    }
  }

  lemma FlushTables(d: Db, size: nat, pos: nat)
    requires Inv(d) && Enabled(d, Flush(size, pos))
    ensures TablesOk(Apply(d, Flush(size, pos)))
  {
    var d' := Apply(d, Flush(size, pos));
    var f := ToFile(d.nextFile, size, d.imm.entries);
    FlushIsFresh(d, f);
    FlushShape(d.version, f, pos);
    FlushElems(d.version, f, pos);
    FlushView(d, f);
  }

  lemma FlushNumbers(d: Db, size: nat, pos: nat)
    requires Inv(d) && Enabled(d, Flush(size, pos))
    ensures NumbersOk(Apply(d, Flush(size, pos)))
  {
    var d' := Apply(d, Flush(size, pos));
    var f := ToFile(d.nextFile, size, d.imm.entries);
    forall l: nat, g ensures InLevel(d'.version, l, g) <==> InLevel(d.version, l, g) || (l == 0 && g == f) {
      FlushFiles(d.version, f, pos, l, g);
    }
    forall l | 0 <= l < |d'.version.levels| ensures DistinctNumbers(d'.version.levels[l]) {
      if l == 0 {
        assert forall g :: g in d.version.levels[0] ==> InLevel(d.version, 0, g);
        InsertDistinct(d.version.levels[0], f, pos);
      }
    }
  }

  lemma FlushJob(d: Db, size: nat, pos: nat)
    requires Inv(d) && Enabled(d, Flush(size, pos))
    ensures JobOk(Apply(d, Flush(size, pos)))
  {
    if d.job.Busy? {
      var f := ToFile(d.nextFile, size, d.imm.entries);
      FlushIsFresh(d, f);
      FlushKeepsReady(d.version, f, pos, d.job.plan);
    }
  }

  lemma FlushKeeps(d: Db, size: nat, pos: nat)
    requires Inv(d) && Enabled(d, Flush(size, pos))
    ensures Inv(Apply(d, Flush(size, pos))) && History(Apply(d, Flush(size, pos))) == History(d)
  {
    var d' := Apply(d, Flush(size, pos));
    FlushTables(d, size, pos);
    FlushNumbers(d, size, pos);
    FlushJob(d, size, pos);
    assert Elems(ImmEntries(d')) == {};
    assert d'.flushed == d.flushed + Elems(ImmEntries(d));
  }

  lemma FlushIsFresh(d: Db, f: File)
    requires Inv(d) && d.imm.Imm? && f.Valid() && f.entries == d.imm.entries && f.number == d.nextFile
    ensures Fresh(d.version, f)
  {
    forall l: nat, g | InLevel(d.version, l, g) ensures Newer(f, g) {
      forall e, h | e in f.entries && h in g.entries ensures e.ik.sn > h.ik.sn {
        assert h in VersionElems(d.version);
        assert e in Elems(ImmEntries(d));
      }
    }
  }

  lemma FlushView(d: Db, f: File)
    requires Inv(d) && d.imm.Imm? && f.Valid() && f.entries == d.imm.entries
    ensures Distinct(d.flushed + FileElems(f))
    ensures SameView(VersionElems(d.version) + FileElems(f), d.flushed + FileElems(f), Oldest(d))
  {
    var V, I := VersionElems(d.version), FileElems(f);
    SortedDistinct(f.entries);
    VersionGet.VersionDistinct(d.version);
    assert I == Elems(ImmEntries(d));
    assert V + I == I + V && d.flushed + I == I + d.flushed;
    forall k, s | Oldest(d) <= s ensures Visible(Look(V + I, k, s)) == Visible(Look(d.flushed + I, k, s)) {
      LookLayered(I, V, k, s);
      LookLayered(I, d.flushed, k, s);
    }
    LookLayered(I, d.flushed, 0, 0);
  }

  // ----- compaction -----

  lemma BeginCompactionKeeps(d: Db, s: Step)
    requires Inv(d) && s.BeginCompaction? && Enabled(d, s)
    ensures Inv(Apply(d, s)) && History(Apply(d, s)) == History(d)
  {
  }

  /** The deeper levels are the ones the compaction started from. */
  lemma {:induction false} KeptSame(v: Version, w: Version, level: nat, t: nat, es: seq<Entry>, n: nat)
    requires n <= |es| && |v.levels| == |w.levels|
    requires forall l :: 1 <= l < |v.levels| ==> v.levels[l] == w.levels[l]
    ensures Kept(v, level, t, es, n) == Kept(w, level, t, es, n)
  {
    if n > 0 {
      KeptSame(v, w, level, t, es, n - 1);
      var k := es[n - 1].ik.user;
      assert BaseLevel(v, level, k) <==> BaseLevel(w, level, k) by {
        assert forall l: nat, f :: level + 2 <= l ==> (InLevel(v, l, f) <==> InLevel(w, l, f));
      }
    }
  }

  /** The marker of a dropped key is cut off from an older value, see CompactionView. */
  ghost predicate Tears(d: Db, s: Step) {
    && s.FinishCompaction? && d.job.Busy? && Ready(d.version, d.job.plan)
    && Torn(d.version, d.job.plan, d.job.smallestSnapshot, d.job.input)
  }

  lemma FinishView(d: Db, outs: seq<File>)
    requires Inv(d) && Enabled(d, FinishCompaction(outs))
    ensures var w := Installed(d.version, d.job.plan, outs);
            && WellFormed(w) && VersionElems(w) <= VersionElems(d.version)
            && (SameView(VersionElems(w), VersionElems(d.version), d.job.smallestSnapshot)
                <==> !Tears(d, FinishCompaction(outs)))
  {
    var j := d.job;
    KeptSame(j.base, d.version, j.plan.level, j.smallestSnapshot, j.input, |j.input|);
    CompactionExact(d.version, j.plan, j.smallestSnapshot, j.input, outs);
    InstalledElems(d.version, j.plan, outs);
    ElemsSplit(d.version, j.plan, j.input);
    KeptSubset(d.version, j.plan.level, j.smallestSnapshot, j.input);
  }

  /** Every file is below the next number, and none has a reserved one. */
  lemma InstalledNumbers(d: Db, p: Plan, outs: seq<File>)
    requires NumbersOk(d) && WellFormed(d.version) && Ready(d.version, p) && FreshOuts(d.version, p, outs)
    requires forall o :: o in outs ==> o.number < d.nextFile
    ensures NumbersOk(d.(job := Idle, version := Installed(d.version, p, outs)))
  {
    InstalledUnique(d.version, p, outs);
    InstalledListed(d.version, p, outs);
    forall l: nat, f | InLevel(Installed(d.version, p, outs), l, f) ensures f.number < d.nextFile {
      InstalledFiles(d.version, p, outs, l, f);
    }
  }

  lemma OpenOutputKeeps(d: Db)
    requires Inv(d) && d.job.Busy?
    ensures Inv(Apply(d, OpenOutput)) && History(Apply(d, OpenOutput)) == History(d)
  {
    var d' := d.(nextFile := d.nextFile + 1, job := d.job.(numbers := d.job.numbers + {d.nextFile}));
    MoreNumbers(d, d');
    SameElsewhere(d, d');
    SameJob(d, d');
  }

  lemma SameElsewhere(d: Db, d': Db)
    requires MemoryOk(d) && SnapshotsOk(d) && TablesOk(d) && d' == d.(nextFile := d'.nextFile, job := d'.job)
    ensures MemoryOk(d') && SnapshotsOk(d') && TablesOk(d') && Oldest(d') == Oldest(d) && History(d') == History(d)
  {
  }

  lemma SameJob(d: Db, d': Db)
    requires JobOk(d) && d.job.Busy? && d'.version == d.version && Oldest(d') == Oldest(d)
    requires d'.job.Busy? && d'.job == d.job.(numbers := d'.job.numbers)
    ensures JobOk(d')
  {
  }

  lemma MoreNumbers(d: Db, d': Db)
    requires NumbersOk(d) && d.job.Busy? && d'.version == d.version && d'.nextFile == d.nextFile + 1
    requires d'.job == d.job.(numbers := d.job.numbers + {d.nextFile})
    ensures NumbersOk(d')
  {
  }

  lemma FinishTables(d: Db, outs: seq<File>)
    requires Inv(d) && Enabled(d, FinishCompaction(outs)) && !Tears(d, FinishCompaction(outs))
    ensures TablesOk(Apply(d, FinishCompaction(outs)))
  {
    var j := d.job;
    var w := Installed(d.version, j.plan, outs);
    FinishView(d, outs);
    SameViewLater(VersionElems(w), VersionElems(d.version), j.smallestSnapshot, Oldest(d));
    SameViewChain(VersionElems(w), VersionElems(d.version), d.flushed, Oldest(d));
  }

  lemma FinishCompactionKeeps(d: Db, outs: seq<File>)
    requires Inv(d) && Enabled(d, FinishCompaction(outs)) && !Tears(d, FinishCompaction(outs))
    ensures Inv(Apply(d, FinishCompaction(outs)))
    ensures History(Apply(d, FinishCompaction(outs))) == History(d)
  {
    FinishTables(d, outs);
    InstalledNumbers(d, d.job.plan, outs);
  }

  lemma MoveShape(v: Version, p: Plan)
    requires WellFormed(v) && Ready(v, p) && p.lo == p.hi && |p.in0| == 1
    ensures WellFormed(Installed(v, p, p.in0)) && VersionElems(Installed(v, p, p.in0)) == VersionElems(v)
  {
    var f := p.in0[0];
    InputValid(v, p, f);
    EntryBounds(f, f.entries[0]);
    assert p.in0 == [f];
    InstallKeepsShape(v, p, p.in0);
    InstalledElems(v, p, p.in0);
    MovedElems(v, p);
  }

  lemma TrivialMoveKeeps(d: Db, s: Step)
    requires Inv(d) && s.TrivialMove? && Enabled(d, s)
    ensures Inv(Apply(d, s)) && History(Apply(d, s)) == History(d)
  {
    var p := Plan(s.level, s.in0, s.lo, s.lo);
    MoveShape(d.version, p);
    MoveNumbers(d, p);
  }

  lemma MoveNumbers(d: Db, p: Plan)
    requires NumbersOk(d) && WellFormed(d.version) && d.job.Idle? && Ready(d.version, p) && |p.in0| == 1
    ensures NumbersOk(d.(version := Installed(d.version, p, p.in0)))
  {
    MoveFresh(d.version, p);
    assert p.in0[0] in p.in0 && InLevel(d.version, p.level, p.in0[0]);
    InstalledNumbers(d, p, p.in0);
    assert d.(job := Idle, version := Installed(d.version, p, p.in0)) == d.(version := Installed(d.version, p, p.in0));
  }

  lemma MovedElems(v: Version, p: Plan)
    requires Ready(v, p) && p.lo == p.hi
    ensures VersionElems(v) == Rest(v, p) + FilesElems(p.in0)
  {
    forall e | e in VersionElems(v) ensures e in Rest(v, p) + FilesElems(p.in0) {
      var l, f :| 0 <= l < |v.levels| && f in v.levels[l] && e in f.entries;
      assert f !in In1(v, p);
    }
    forall e | e in FilesElems(p.in0) ensures e in VersionElems(v) {
      var f :| f in p.in0 && e in f.entries;
      assert f in v.levels[p.level];
    }
  }

  // ----- runs -----

  ghost predicate Initial(d: Db) {
    && d.mem == [] && d.imm == NoImm && d.flushed == {} && d.snapshots == [] && d.job == Idle
    && |d.version.levels| == NUM_LEVELS && forall l :: 0 <= l < NUM_LEVELS ==> d.version.levels[l] == []
  }

  lemma InitialInv(d: Db)
    requires Initial(d)
    ensures Inv(d) && History(d) == {}
  {
    assert VersionElems(d.version) == {};
    assert forall l: nat, f :: !InLevel(d.version, l, f);
  }

  predicate Compacts(s: Step) {
    s.BeginCompaction? || s.OpenOutput? || s.FinishCompaction? || s.TrivialMove?
  }

  lemma CompactsKeeps(d: Db, s: Step)
    requires Inv(d) && Enabled(d, s) && !Tears(d, s) && Compacts(s)
    ensures Inv(Apply(d, s)) && History(Apply(d, s)) == History(d)
  {
    match s
    case BeginCompaction(_, _, _, _, _, _) => BeginCompactionKeeps(d, s);
    case OpenOutput => OpenOutputKeeps(d);
    case FinishCompaction(outs) => FinishCompactionKeeps(d, outs);
    case TrivialMove(_, _, _) => TrivialMoveKeeps(d, s);
  }

  lemma StepKeeps(d: Db, s: Step)
    requires Inv(d) && Enabled(d, s) && !Tears(d, s)
    ensures Inv(Apply(d, s))
    ensures History(Apply(d, s)) == History(d) + if s.Write? then Elems(s.batch) else {}
  {
    if Compacts(s) {
      CompactsKeeps(d, s);
    } else {
      match s
      case Write(batch) => WriteKeeps(d, batch);
      case Switch => SwitchKeeps(d);
      case Flush(size, pos) => FlushKeeps(d, size, pos);
      case TakeSnapshot => TakeSnapshotKeeps(d);
      case ReleaseSnapshot(i) => ReleaseSnapshotKeeps(d, i);
    }
  }

  ghost predicate Taken(d: Db, s: Step, d': Db) {
    Enabled(d, s) && !Tears(d, s) && d' == Apply(d, s)
  }

  lemma TakenKeeps(d: Db, s: Step, d': Db)
    requires Inv(d) && Taken(d, s, d')
    ensures Inv(d') && History(d') == History(d) + if s.Write? then Elems(s.batch) else {}
    ensures d.lastSequence <= d'.lastSequence
  {
    StepKeeps(d, s);
  }

  ghost predicate Path(ds: seq<Db>, ss: seq<Step>) {
    |ds| == |ss| + 1 && forall i :: 0 <= i < |ss| ==> Taken(ds[i], ss[i], ds[i + 1])
  }

  /** A run in which no compaction tears a marker from the value below it. */
  ghost predicate Run(ds: seq<Db>, ss: seq<Step>) {
    Path(ds, ss) && Initial(ds[0])
  }

  /** The batches of the first n steps. */
  ghost function Written(ss: seq<Step>, n: nat): set<Entry>
    requires n <= |ss|
  {
    if n == 0 then {} else Written(ss, n - 1) + if ss[n - 1].Write? then Elems(ss[n - 1].batch) else {}
  }

  lemma {:induction false} PathKeeps(ds: seq<Db>, ss: seq<Step>, n: nat)
    requires Path(ds, ss) && Inv(ds[0]) && n <= |ss|
    ensures Inv(ds[n])
  {
    if n > 0 {
      PathKeeps(ds, ss, n - 1);
      TakenGood(ds[n - 1], ss[n - 1], ds[n]);
    }
  }

  lemma TakenGood(d: Db, s: Step, d': Db)
    requires Inv(d) && Taken(d, s, d')
    ensures Inv(d')
  {
    TakenKeeps(d, s, d');
  }

  lemma {:induction false} Accumulates(hs: seq<set<Entry>>, ss: seq<Step>, n: nat)
    requires |hs| == |ss| + 1 && n <= |ss|
    requires forall i :: 0 <= i < |ss| ==> hs[i + 1] == hs[i] + if ss[i].Write? then Elems(ss[i].batch) else {}
    ensures hs[n] == hs[0] + Written(ss, n)
  {
    if n > 0 {
      Accumulates(hs, ss, n - 1);
      OneWriteMore(hs[0], Written(ss, n - 1), if ss[n - 1].Write? then Elems(ss[n - 1].batch) else {});
    }
  }

  lemma PathWrites(ds: seq<Db>, ss: seq<Step>, n: nat)
    requires Path(ds, ss) && Inv(ds[0]) && n <= |ss|
    ensures History(ds[n]) == History(ds[0]) + Written(ss, n)
  {
    var hs := seq(|ds|, i requires 0 <= i < |ds| => History(ds[i]));
    forall i | 0 <= i < |ss| ensures hs[i + 1] == hs[i] + if ss[i].Write? then Elems(ss[i].batch) else {} {
      PathKeeps(ds, ss, i);
      TakenKeeps(ds[i], ss[i], ds[i + 1]);
    }
    Accumulates(hs, ss, n);
  }

  lemma OneWriteMore(a: set<Entry>, b: set<Entry>, c: set<Entry>)
    ensures a + b + c == a + (b + c)
  {
  }

  /** From any good state, such as the one a reopened database starts in. */
  lemma PathsAreRight(ds: seq<Db>, ss: seq<Step>, n: nat)
    requires Path(ds, ss) && Inv(ds[0]) && n <= |ss|
    ensures Inv(ds[n]) && History(ds[n]) == History(ds[0]) + Written(ss, n)
  {
    PathKeeps(ds, ss, n);
    PathWrites(ds, ss, n);
  }

  /** In every reachable state the invariant holds, and the history that Get is
      proved against is exactly what was written. */
  lemma RunsAreRight(ds: seq<Db>, ss: seq<Step>, n: nat)
    requires Run(ds, ss) && n <= |ss|
    ensures Inv(ds[n]) && History(ds[n]) == Written(ss, n)
  {
    InitialInv(ds[0]);
    PathsAreRight(ds, ss, n);
  }

  lemma NewWritesAreLater(d: Db, s: Step, d': Db, k: UserKey, sn: nat)
    requires Inv(d) && Taken(d, s, d') && sn <= d.lastSequence
    ensures Look(History(d'), k, sn) == Look(History(d), k, sn)
  {
    TakenKeeps(d, s, d');
    HistoryLayers(d, k, sn);
    HistoryLayers(d', k, sn);
    if s.Write? {
      forall e | e in Elems(s.batch) ensures e.ik.sn > sn {
        var i :| 0 <= i < |s.batch| && s.batch[i] == e;
      }
    }
    LookSame(History(d'), sn, History(d), sn, k);
  }

  lemma {:induction false} HistoryIsStable(ds: seq<Db>, ss: seq<Step>, i: nat, j: nat, k: UserKey, s: nat)
    requires Path(ds, ss) && Inv(ds[0]) && i <= j <= |ss| && s <= ds[i].lastSequence
    ensures s <= ds[j].lastSequence
    ensures Look(History(ds[j]), k, s) == Look(History(ds[i]), k, s)
  {
    if i < j {
      HistoryIsStable(ds, ss, i, j - 1, k, s);
      PathsAreRight(ds, ss, j - 1);
      StableStep(ds[j - 1], ss[j - 1], ds[j], k, s);
    }
  }

  lemma StableStep(d: Db, s: Step, d': Db, k: UserKey, sn: nat)
    requires Inv(d) && Taken(d, s, d') && sn <= d.lastSequence
    ensures sn <= d'.lastSequence && Look(History(d'), k, sn) == Look(History(d), k, sn)
  {
    TakenKeeps(d, s, d');
    NewWritesAreLater(d, s, d', k, sn);
  }

  /** What the memtables and the tables hold. */
  ghost function Held(d: Db): set<Entry> {
    Elems(d.mem) + Elems(ImmEntries(d)) + VersionElems(d.version)
  }

  lemma HeldIsDistinct(d: Db)
    requires Inv(d)
    ensures Distinct(Held(d))
  {
    HistoryLayers(d, 0, 0);
    assert Held(d) <= History(d);
  }

  /** It reads like all that was ever written, from the oldest live snapshot on. */
  lemma HeldIsHistory(d: Db, k: UserKey, s: nat)
    requires Inv(d) && Oldest(d) <= s
    ensures Visible(Look(Held(d), k, s)) == Visible(Look(History(d), k, s))
  {
    var M, I, V := Elems(d.mem), Elems(ImmEntries(d)), VersionElems(d.version);
    HistoryLayers(d, k, s);
    SortedDistinct(d.mem);
    SortedDistinct(ImmEntries(d));
    VersionGet.VersionDistinct(d.version);
    LookLayered(I, V, k, s);
    LookLayered(M, I + V, k, s);
    assert Held(d) == M + (I + V);
  }

  /** What is held changes by flushes and compactions, and yet a snapshot reads the same
      for as long as it lives. */
  lemma SnapshotIsStable(ds: seq<Db>, ss: seq<Step>, i: nat, j: nat, k: UserKey, s: nat)
    requires Path(ds, ss) && Inv(ds[0]) && i <= j <= |ss|
    requires Oldest(ds[i]) <= s <= ds[i].lastSequence && Oldest(ds[j]) <= s
    ensures Visible(Look(Held(ds[j]), k, s)) == Visible(Look(Held(ds[i]), k, s))
  {
    HistoryIsStable(ds, ss, i, j, k, s);
    PathsAreRight(ds, ss, i);
    PathsAreRight(ds, ss, j);
    HeldIsHistory(ds[i], k, s);
    HeldIsHistory(ds[j], k, s);
  }
}
