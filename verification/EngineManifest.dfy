/** The engine's version and its manifest: every step that changes the version logs an
    edit (VersionSet::LogAndApply), and replaying the edits of any run from the empty
    version (VersionSet::Recover) gives the version the engine has. */
module EngineManifest {
  import opened Versions
  import opened Install
  import opened CompactionView
  import opened Merge
  import opened FileNumbers
  import opened Engine
  import opened EngineRuns
  import opened InstallEdit
  import B = Builder

  predicate Edits(s: Step) {
    s.Flush? || s.FinishCompaction? || s.TrivialMove?
  }

  /** The edit a step logs (db/db_impl.cc, WriteLevel0Table, InstallCompactionResults and
      the trivial move of BackgroundCompaction). */
  ghost function EditFor(d: Db, s: Step): B.VersionEdit
    requires Enabled(d, s) && Edits(s)
  {
    match s
    case Flush(size, _) => B.VersionEdit([], [(0, ToFile(d.nextFile, size, d.imm.entries))])
    case FinishCompaction(outs) => EditOf(d.version, d.job.plan, outs)
    case TrivialMove(level, in0, lo) => EditOf(d.version, Plan(level, in0, lo, lo), in0)
  }

  // ----- one edit -----

  lemma OneAdded(f: File, l: nat)
    ensures B.AddedAt(B.VersionEdit([], [(0, f)]), l) == if l == 0 then {f} else {}
    ensures B.DeletedAt(B.VersionEdit([], [(0, f)]), l) == {}
  {
    assert (0, f) in [(0, f)];
  }

  lemma FlushLevelFiles(v: Version, f: File, pos: nat, l: nat)
    requires 0 < |v.levels| && pos <= |v.levels[0]| && l < |v.levels| && (forall g :: g in v.levels[0] ==> g.number != f.number)
    ensures B.Files(AddLevel0(v, f, pos).levels[l]) == After(v, B.VersionEdit([], [(0, f)]), l)
  {
    var e := B.VersionEdit([], [(0, f)]);
    OneAdded(f, l);
    if l == 0 {
      assert v.levels[0] == v.levels[0][..pos] + v.levels[0][pos..];
      assert B.Files(AddLevel0(v, f, pos).levels[0]) == B.Files(v.levels[0]) + {f};
    } else {
      Untouched(v, e, l);
    }
  }

  lemma FlushIsLogged(v: Version, f: File, pos: nat)
    requires WellFormed(v) && pos <= |v.levels[0]| && Fresh(v, f) && Listed(AddLevel0(v, f, pos))
    ensures B.HasFiles(AddLevel0(v, f, pos), v, [B.VersionEdit([], [(0, f)])])
  {
    var w := AddLevel0(v, f, pos);
    FlushShape(v, f, pos);
    forall l | 0 <= l < |v.levels| ensures B.Ordered(w.levels[l]) && B.Files(w.levels[l]) == After(v, B.VersionEdit([], [(0, f)]), l) {
      LevelsOrdered(w, l);
      assert forall g :: g in v.levels[0] ==> InLevel(v, 0, g);
      FlushLevelFiles(v, f, pos, l);
    }
    OneEdit(v, B.VersionEdit([], [(0, f)]), w);
  }

  lemma FinishIsLogged(d: Db, outs: seq<File>)
    requires Inv(d) && Enabled(d, FinishCompaction(outs))
    ensures Apart(d.version, d.job.plan, outs)
    ensures B.HasFiles(Installed(d.version, d.job.plan, outs), d.version, [EditOf(d.version, d.job.plan, outs)])
  {
    forall f, o | f in d.version.levels[d.job.plan.level + 1] && o in outs ensures f.number != o.number {
      assert InLevel(d.version, d.job.plan.level + 1, f);
    }
    FinishView(d, outs);
    InstallIsLogged(d.version, d.job.plan, outs);
  }

  lemma MoveIsLogged(v: Version, p: Plan)
    requires WellFormed(v) && UniqueNumbers(v) && Listed(v) && Ready(v, p) && p.lo == p.hi && |p.in0| == 1
    ensures B.HasFiles(Installed(v, p, p.in0), v, [EditOf(v, p, p.in0)])
  {
    MoveApart(v, p);
    MoveShape(v, p);
    InstallIsLogged(v, p, p.in0);
  }

  /** What LogAndApply makes of the step's edit is the version the engine goes on with. */
  lemma StepIsLogged(d: Db, s: Step)
    requires Inv(d) && Enabled(d, s) && Edits(s)
    ensures B.HasFiles(Apply(d, s).version, d.version, [EditFor(d, s)])
  {
    match s
    case Flush(size, pos) =>
      var f := ToFile(d.nextFile, size, d.imm.entries);
      ToFileValid(d.nextFile, size, d.imm.entries);
      FlushIsFresh(d, f);
      FlushIsLogged(d.version, f, pos);
    case FinishCompaction(outs) => FinishIsLogged(d, outs);
    case TrivialMove(level, in0, lo) => MoveIsLogged(d.version, Plan(level, in0, lo, lo));
  }

  /** A compaction that ends in a reachable state meets what SavedTarget and SavedSource
      ask for. */
  lemma FinishSaves(d: Db, outs: seq<File>, source: seq<File>, target: seq<File>)
    requires Inv(d) && Enabled(d, FinishCompaction(outs)) && B.Ordered(source) && B.Ordered(target)
    requires B.Files(source) == After(d.version, EditOf(d.version, d.job.plan, outs), d.job.plan.level)
    requires B.Files(target) == After(d.version, EditOf(d.version, d.job.plan, outs), d.job.plan.level + 1)
    ensures var w := Apply(d, FinishCompaction(outs)).version;
            w.levels[d.job.plan.level] == source && w.levels[d.job.plan.level + 1] == target
  {
    var j := d.job;
    FinishIsLogged(d, outs);
    NumbersApart(outs, d.version.levels[j.plan.level + 1]);
    LevelsOrdered(d.version, j.plan.level);
    KeptSame(j.base, d.version, j.plan.level, j.smallestSnapshot, j.input, |j.input|);
    OutputsFromInputs(d.version, j.plan, j.smallestSnapshot, j.input, outs);
    SavedSource(d.version, j.plan, outs, source);
    SavedTarget(d.version, j.plan, outs, target);
  }

  // ----- a whole run -----

  /** The manifest after the first n steps, when it began with `start`. */
  ghost function Manifest(start: seq<B.VersionEdit>, ds: seq<Db>, ss: seq<Step>, n: nat): seq<B.VersionEdit>
    requires Path(ds, ss) && n <= |ss|
  {
    if n == 0 then start
    else
      assert Taken(ds[n - 1], ss[n - 1], ds[n]);
      NextManifest(ds[n - 1], ss[n - 1], Manifest(start, ds, ss, n - 1))
  }

  /** A number that was ever added to level l is given out, not reserved, and if it still
      names a file then at that level or below. */
  ghost predicate AddedBefore(d: Db, l: nat, number: nat) {
    && number < d.nextFile && (d.job.Busy? ==> number !in d.job.numbers)
    && forall m, g :: InLevel(d.version, m, g) && g.number == number ==> l <= m
  }

  ghost predicate AllBefore(d: Db, es: seq<B.VersionEdit>) {
    forall l: nat, f :: f in B.AccumulateAll(es, l).added ==> AddedBefore(d, l, f.number)
  }

  ghost predicate Logged(base: Version, d: Db, es: seq<B.VersionEdit>) {
    B.Manifest(base, es) && B.HasFiles(d.version, base, es) && AllBefore(d, es)
  }

  /** The files an edit adds, with their levels. */
  lemma EditAdds(d: Db, s: Step, l: nat, f: File)
    requires Enabled(d, s) && Edits(s) && f in B.AddedAt(EditFor(d, s), l)
    ensures s.Flush? ==> l == 0 && f.number == d.nextFile
    ensures s.FinishCompaction? ==> l == d.job.plan.level + 1 && f in s.outs
    ensures s.TrivialMove? ==> l == s.level + 1 && f in s.in0
  {
    match s
    case Flush(size, _) => OneAdded(ToFile(d.nextFile, size, d.imm.entries), l);
    case FinishCompaction(outs) => EditAt(d.version, d.job.plan, outs, l);
    case TrivialMove(level, in0, lo) => EditAt(d.version, Plan(level, in0, lo, lo), in0, l);
  }

  /** No number comes back to a level it was on before. */
  lemma NeverBack(d: Db, s: Step, l: nat, f: File)
    requires Inv(d) && Enabled(d, s) && Edits(s) && f in B.AddedAt(EditFor(d, s), l)
    ensures !AddedBefore(d, l, f.number)
  {
    EditAdds(d, s, l, f);
    if s.TrivialMove? {
      assert InLevel(d.version, s.level, f);
    }
  }

  /** What was added stays given out and does not move up. */
  lemma BeforeStays(d: Db, s: Step, d': Db, l: nat, number: nat)
    requires Inv(d) && Taken(d, s, d') && AddedBefore(d, l, number)
    ensures AddedBefore(d', l, number)
  {
    forall m, g | InLevel(d'.version, m, g) && g.number == number ensures l <= m {
      match s
      case Flush(size, pos) => FlushFiles(d.version, ToFile(d.nextFile, size, d.imm.entries), pos, m, g);
      case FinishCompaction(outs) => InstalledFiles(d.version, d.job.plan, outs, m, g);
      case TrivialMove(level, in0, lo) =>
        InstalledFiles(d.version, Plan(level, in0, lo, lo), in0, m, g);
        if g in in0 { assert InLevel(d.version, level, g); }
      case _ =>
    }
  }

  /** The numbers just added count as such from now on. */
  lemma AddedNow(d: Db, s: Step, d': Db, l: nat, f: File)
    requires NumbersOk(d) && NumbersOk(d') && Taken(d, s, d') && Edits(s) && f in B.AddedAt(EditFor(d, s), l)
    ensures AddedBefore(d', l, f.number)
  {
    EditAdds(d, s, l, f);
    if s.FinishCompaction? {
      NowFinished(d, s.outs, f);
    } else if s.TrivialMove? {
      assert InLevel(d.version, s.level, f);
      assert InLevel(d'.version, l, f);
    }
  }

  lemma NowFinished(d: Db, outs: seq<File>, f: File)
    requires NumbersOk(d) && Enabled(d, FinishCompaction(outs)) && f in outs
    ensures AddedBefore(Apply(d, FinishCompaction(outs)), d.job.plan.level + 1, f.number)
  {
    forall m, g | InLevel(Apply(d, FinishCompaction(outs)).version, m, g) && g.number == f.number ensures m == d.job.plan.level + 1 {
      InstalledFiles(d.version, d.job.plan, outs, m, g);
    }
  }

  lemma EditFits(d: Db, s: Step)
    requires Inv(d) && Enabled(d, s) && Edits(s)
    ensures B.EditOk(EditFor(d, s), |d.version.levels|)
  {
    match s
    case Flush(_, _) =>
    case FinishCompaction(outs) =>
    case TrivialMove(level, in0, lo) =>
  }

  predicate Empty(v: Version) {
    forall l :: 0 <= l < |v.levels| ==> v.levels[l] == []
  }

  lemma NewEdit(base: Version, d: Db, s: Step, es: seq<B.VersionEdit>)
    requires Empty(base) && |base.levels| == |d.version.levels| && B.Manifest(base, es) && AllBefore(d, es)
    requires Inv(d) && Enabled(d, s) && Edits(s)
    ensures B.Manifest(base, es + [EditFor(d, s)])
  {
    var e := EditFor(d, s);
    EditFits(d, s);
    assert (es + [e])[..|es|] == es;
    forall l | 0 <= l < |base.levels| ensures B.NoReadd(B.Files(base.levels[l]), es + [e], l) {
      var prior := B.Files(base.levels[l]) + B.AccumulateAll(es, l).added;
      forall f, g | f in B.AddedAt(e, l) && g in prior ensures f.number != g.number {
        NeverBack(d, s, l, f);
        assert AddedBefore(d, l, g.number);
      }
    }
  }

  lemma MoreBefore(d: Db, s: Step, d': Db, es: seq<B.VersionEdit>)
    requires Inv(d) && Inv(d') && Taken(d, s, d') && AllBefore(d, es)
    ensures AllBefore(d', es)
    ensures Edits(s) ==> AllBefore(d', es + [EditFor(d, s)])
  {
    forall l: nat, f | f in B.AccumulateAll(es, l).added ensures AddedBefore(d', l, f.number) {
      BeforeStays(d, s, d', l, f.number);
    }
    if Edits(s) {
      var e := EditFor(d, s);
      assert (es + [e])[..|es|] == es;
      forall l: nat, f | f in B.AccumulateAll(es + [e], l).added ensures AddedBefore(d', l, f.number) {
        if f in B.AddedAt(e, l) { AddedNow(d, s, d', l, f); } else { assert f in B.AccumulateAll(es, l).added; }
      }
    }
  }

  lemma LoggedEdit(base: Version, d: Db, s: Step, d': Db, es: seq<B.VersionEdit>)
    requires Empty(base) && Inv(d) && Inv(d') && Taken(d, s, d') && Logged(base, d, es) && Edits(s)
    ensures Logged(base, d', es + [EditFor(d, s)])
  {
    var e := EditFor(d, s);
    MoreBefore(d, s, d', es);
    NewEdit(base, d, s, es);
    StepIsLogged(d, s);
    OneMoreEdit(base, es, e, d.version, d'.version);
  }

  lemma OneMoreEdit(base: Version, es: seq<B.VersionEdit>, e: B.VersionEdit, v: Version, w: Version)
    requires B.HasFiles(v, base, es) && B.HasFiles(w, v, [e])
    ensures B.HasFiles(w, base, es + [e])
  {
    assert (es + [e])[..|es|] == es && (es + [e])[..|es| + 1] == es + [e];
    B.NextVersion(base, es + [e], |es|, v, w);
  }

  lemma LoggedSame(base: Version, d: Db, s: Step, d': Db, es: seq<B.VersionEdit>)
    requires Inv(d) && Inv(d') && Taken(d, s, d') && Logged(base, d, es) && !Edits(s)
    ensures Logged(base, d', es)
  {
    MoreBefore(d, s, d', es);
    assert d'.version == d.version;
  }

  /** A new database begins with nothing. */
  lemma NothingLogged(d: Db)
    requires Initial(d)
    ensures Empty(d.version) && Inv(d) && Logged(d.version, d, [])
  {
    InitialInv(d);
  }

  /** The manifest after one more step. */
  ghost function NextManifest(d: Db, s: Step, es: seq<B.VersionEdit>): seq<B.VersionEdit>
    requires Enabled(d, s)
  {
    if Edits(s) then es + [EditFor(d, s)] else es
  }

  lemma LoggedNext(base: Version, d: Db, s: Step, d': Db, es: seq<B.VersionEdit>)
    requires Empty(base) && Inv(d) && Inv(d') && Taken(d, s, d') && Logged(base, d, es)
    ensures Logged(base, d', NextManifest(d, s, es))
  {
    if Edits(s) { LoggedEdit(base, d, s, d', es); } else { LoggedSame(base, d, s, d', es); }
  }

  /** The manifest describes the version after n steps. */
  ghost predicate LoggedAt(base: Version, start: seq<B.VersionEdit>, ds: seq<Db>, ss: seq<Step>, n: nat)
    requires Path(ds, ss) && n <= |ss|
  {
    Logged(base, ds[n], Manifest(start, ds, ss, n))
  }

  lemma LoggedMore(base: Version, start: seq<B.VersionEdit>, ds: seq<Db>, ss: seq<Step>, n: nat)
    requires Empty(base) && Path(ds, ss) && n < |ss| && Inv(ds[n]) && Inv(ds[n + 1])
    ensures LoggedAt(base, start, ds, ss, n) ==> LoggedAt(base, start, ds, ss, n + 1)
  {
    if LoggedAt(base, start, ds, ss, n) {
      LoggedNext(base, ds[n], ss[n], ds[n + 1], Manifest(start, ds, ss, n));
    }
  }

  lemma {:induction false} Stepwise(P: seq<bool>, n: nat)
    requires n < |P| && P[0] && forall i :: 0 <= i < |P| - 1 && P[i] ==> P[i + 1]
    ensures P[n]
  {
    if n > 0 { Stepwise(P, n - 1); }
  }

  /** Over any run, of a new database or of one opened again, the manifest goes on
      describing the version. */
  lemma RunsAreLogged(base: Version, start: seq<B.VersionEdit>, ds: seq<Db>, ss: seq<Step>, n: nat)
    requires Empty(base) && Path(ds, ss) && Inv(ds[0]) && n <= |ss| && Logged(base, ds[0], start)
    ensures Logged(base, ds[n], Manifest(start, ds, ss, n))
  {
    var P := seq(|ds|, i requires 0 <= i < |ds| => LoggedAt(base, start, ds, ss, i));
    forall i | 0 <= i < |P| - 1 && P[i] ensures P[i + 1] {
      PathKeeps(ds, ss, i);
      PathKeeps(ds, ss, i + 1);
      LoggedMore(base, start, ds, ss, i);
    }
    Stepwise(P, n);
  }

  /** Replaying the manifest of any run with one Builder gives the version in use, file by
      file and in the same order. What a manifest begins with is NothingLogged for a new
      database and Reopen.OpenIsLogged for one opened again. */
  method RecoverVersion(ghost ds: seq<Db>, ghost ss: seq<Step>, ghost n: nat, ghost start: seq<B.VersionEdit>,
                        base: Version, manifest: seq<B.VersionEdit>)
    returns (w: Version)
    requires Empty(base) && Path(ds, ss) && Inv(ds[0]) && n <= |ss| && Logged(base, ds[0], start)
    requires manifest == Manifest(start, ds, ss, n)
    ensures w == ds[n].version
  {
    RunsAreLogged(base, start, ds, ss, n);
    w := B.Recover(base, manifest);
    B.OneVersion(w, ds[n].version, base, manifest);
  }

  /** The same for the version after one more edit. */
  method LogAndApplyStep(ghost d: Db, ghost s: Step, v: Version, e: B.VersionEdit) returns (w: Version)
    requires Inv(d) && Enabled(d, s) && Edits(s) && v == d.version && e == EditFor(d, s)
    ensures w == Apply(d, s).version
  {
    StepIsLogged(d, s);
    EditApplies(d, s);
    w := B.LogAndApply(v, e);
    B.OneVersion(w, Apply(d, s).version, v, [e]);
  }

  lemma SingleEdit(base: set<File>, e: B.VersionEdit, l: nat)
    requires forall f, g :: f in B.AddedAt(e, l) && g in base ==> f.number != g.number
    ensures B.NoReadd(base, [e], l)
  {
    assert [e][..0] == [];
    assert base + {} == base;
  }

  lemma EditApplies(d: Db, s: Step)
    requires Inv(d) && Enabled(d, s) && Edits(s)
    ensures B.Manifest(d.version, [EditFor(d, s)])
  {
    var e := EditFor(d, s);
    EditFits(d, s);
    forall l | 0 <= l < |d.version.levels|
      ensures B.Ordered(d.version.levels[l]) && B.NoReadd(B.Files(d.version.levels[l]), [e], l)
    {
      LevelsOrdered(d.version, l);
      forall f, g | f in B.AddedAt(e, l) && g in B.Files(d.version.levels[l]) ensures f.number != g.number {
        NotThere(d, s, l, f, g);
      }
      SingleEdit(B.Files(d.version.levels[l]), e, l);
    }
  }

  lemma NotThere(d: Db, s: Step, l: nat, f: File, g: File)
    requires Inv(d) && Enabled(d, s) && Edits(s) && f in B.AddedAt(EditFor(d, s), l) && InLevel(d.version, l, g)
    ensures f.number != g.number
  {
    EditAdds(d, s, l, f);
    if s.TrivialMove? { assert InLevel(d.version, s.level, f); }
  }
}
