/** The edit a compaction logs, applied by a Builder, yields the version that Install
    reasons about (db/db_impl.cc, InstallCompactionResults; db/version_set.cc, Builder). */
module InstallEdit {
  import opened Versions
  import opened Builder
  import Install

  function Marks(level: nat, fs: seq<File>): seq<(nat, nat)> {
    seq(|fs|, i requires 0 <= i < |fs| => (level, fs[i].number))
  }

  function Adds(level: nat, fs: seq<File>): seq<(nat, File)> {
    seq(|fs|, i requires 0 <= i < |fs| => (level, fs[i]))
  }

  /** AddInputDeletions and one AddFile per output. */
  function EditOf(v: Version, p: Install.Plan, outs: seq<File>): VersionEdit
    requires p.level + 1 < |v.levels| && p.lo <= p.hi <= |v.levels[p.level + 1]|
  {
    VersionEdit(Marks(p.level, p.in0) + Marks(p.level + 1, Install.In1(v, p)), Adds(p.level + 1, outs))
  }

  lemma MarksMembers(level: nat, fs: seq<File>, l: nat)
    ensures DeletedAt(VersionEdit(Marks(level, fs), []), l) == if l == level then Numbers(Files(fs)) else {}
  {
    var ms := Marks(level, fs);
    forall n | l == level && n in Numbers(Files(fs)) ensures n in DeletedAt(VersionEdit(ms, []), l) {
      var f :| f in fs && f.number == n;
      var i :| 0 <= i < |fs| && fs[i] == f;
      assert ms[i] == (level, n);
    }
    forall n | n in DeletedAt(VersionEdit(ms, []), l) ensures l == level && n in Numbers(Files(fs)) {
      var d :| d in ms && d.0 == l && d.1 == n;
      var i :| 0 <= i < |ms| && ms[i] == d;
      assert fs[i] in Files(fs);
    }
  }

  lemma AddsMembers(level: nat, fs: seq<File>, l: nat)
    ensures AddedAt(VersionEdit([], Adds(level, fs)), l) == if l == level then Files(fs) else {}
  {
    var ms := Adds(level, fs);
    forall f | l == level && f in Files(fs) ensures f in AddedAt(VersionEdit([], ms), l) {
      var i :| 0 <= i < |fs| && fs[i] == f;
      assert ms[i] == (level, f);
    }
  }

  lemma EditAt(v: Version, p: Install.Plan, outs: seq<File>, l: nat)
    requires p.level + 1 < |v.levels| && p.lo <= p.hi <= |v.levels[p.level + 1]|
    ensures DeletedAt(EditOf(v, p, outs), l) ==
              if l == p.level then Numbers(Files(p.in0)) else if l == p.level + 1 then Numbers(Files(Install.In1(v, p))) else {}
    ensures AddedAt(EditOf(v, p, outs), l) == if l == p.level + 1 then Files(outs) else {}
  {
    var e := EditOf(v, p, outs);
    var m0, m1 := Marks(p.level, p.in0), Marks(p.level + 1, Install.In1(v, p));
    MarksMembers(p.level, p.in0, l);
    MarksMembers(p.level + 1, Install.In1(v, p), l);
    AddsMembers(p.level + 1, outs, l);
    assert DeletedAt(e, l) == DeletedAt(VersionEdit(m0, []), l) + DeletedAt(VersionEdit(m1, []), l);
    assert AddedAt(e, l) == AddedAt(VersionEdit([], Adds(p.level + 1, outs)), l);
  }

  /** Deleting by number is deleting the files, when numbers are unique. */
  lemma SameNumber(fs: seq<File>, gone: seq<File>, f: File)
    requires DistinctNumbers(fs) && f in fs && forall g :: g in gone ==> g in fs
    ensures f.number in Numbers(Files(gone)) <==> f in gone
  {
    if f.number in Numbers(Files(gone)) {
      var g :| g in Files(gone) && g.number == f.number;
      var i :| 0 <= i < |fs| && fs[i] == f;
      var j :| 0 <= j < |fs| && fs[j] == g;
    }
  }

  lemma SourceLevel(v: Version, p: Install.Plan, outs: seq<File>)
    requires Install.Ready(v, p) && DistinctNumbers(v.levels[p.level])
    ensures Files(Install.Installed(v, p, outs).levels[p.level]) ==
            Surviving(Files(v.levels[p.level]), Accumulate(Pending({}, {}), EditOf(v, p, outs), p.level))
  {
    var fs := v.levels[p.level];
    EditAt(v, p, outs, p.level);
    Install.RemoveMembers(fs, p.in0);
    assert Numbers({}) == {};
    forall f | f in fs ensures f.number in Numbers(Files(p.in0)) <==> f in p.in0 {
      SameNumber(fs, p.in0, f);
    }
  }

  lemma TargetLevel(v: Version, p: Install.Plan, outs: seq<File>)
    requires Install.Ready(v, p) && DistinctNumbers(v.levels[p.level + 1])
    requires Numbers(Files(outs)) !! Numbers(Files(v.levels[p.level + 1]))
    ensures Files(Install.Installed(v, p, outs).levels[p.level + 1]) ==
            Surviving(Files(v.levels[p.level + 1]), Accumulate(Pending({}, {}), EditOf(v, p, outs), p.level + 1))
  {
    var fs, in1 := v.levels[p.level + 1], Install.In1(v, p);
    var kept := fs[..p.lo] + outs + fs[p.hi..];
    EditAt(v, p, outs, p.level + 1);
    assert fs == fs[..p.lo] + in1 + fs[p.hi..];
    forall f | f in fs ensures f in kept <==> f.number !in Numbers(Files(in1)) && f.number !in Numbers(Files(outs)) {
      assert f in Files(fs) && f.number in Numbers(Files(fs));
      SameNumber(fs, in1, f);
      KeptApart(fs, outs, p.lo, p.hi, f);
    }
    forall f | f in outs ensures f.number in Numbers(Files(outs)) {
      assert f in Files(outs);
    }
  }

  /** A file of the level is kept exactly when it lies outside the replaced run. */
  lemma KeptApart(fs: seq<File>, outs: seq<File>, lo: nat, hi: nat, f: File)
    requires DistinctNumbers(fs) && lo <= hi <= |fs| && f in fs && f.number !in Numbers(Files(outs))
    ensures f in fs[..lo] + outs + fs[hi..] <==> f !in fs[lo..hi]
  {
    assert f in outs ==> f in Files(outs) && f.number in Numbers(Files(outs));
    var i :| 0 <= i < |fs| && fs[i] == f;
    assert forall j :: 0 <= j < |fs| && fs[j] == f ==> j == i;
    if lo <= i < hi {
      assert fs[lo..hi][i - lo] == f;
    } else if i < lo {
      assert fs[..lo][i] == f;
    } else {
      assert fs[hi..][i - hi] == f;
    }
  }

  lemma RangesOrdered(fs: seq<File>)
    requires SortedRanges(fs)
    ensures Ordered(fs)
  {
  }

  lemma {:induction false} RemoveKeepsOrder(fs: seq<File>, gone: seq<File>)
    requires Ordered(fs)
    ensures Ordered(Install.Remove(fs, gone))
  {
    if fs != [] {
      var n := |fs| - 1;
      RemoveKeepsOrder(fs[..n], gone);
      Install.RemoveMembers(fs[..n], gone);
      var r := Install.Remove(fs[..n], gone);
      forall i | 0 <= i < |r| ensures Before(r[i], fs[n]) {
        assert r[i] in fs[..n];
      }
    }
  }

  /** Whatever list the Builder saves for the level compacted into, it is the one of the
      installed version. */
  lemma SavedTarget(v: Version, p: Install.Plan, outs: seq<File>, saved: seq<File>)
    requires WellFormed(v) && Install.Ready(v, p) && SortedLevel(outs) && Install.FromInputs(v, p, outs)
    requires DistinctNumbers(v.levels[p.level + 1]) && Numbers(Files(outs)) !! Numbers(Files(v.levels[p.level + 1]))
    requires Ordered(saved)
    requires Files(saved) == Surviving(Files(v.levels[p.level + 1]), Accumulate(Pending({}, {}), EditOf(v, p, outs), p.level + 1))
    ensures saved == Install.Installed(v, p, outs).levels[p.level + 1]
  {
    TargetLevel(v, p, outs);
    Install.NextLevelSorted(v, p, outs);
    RangesOrdered(Install.Installed(v, p, outs).levels[p.level + 1]);
    OrderedUnique(saved, Install.Installed(v, p, outs).levels[p.level + 1]);
  }

  /** The same for the level compacted from. */
  lemma SavedSource(v: Version, p: Install.Plan, outs: seq<File>, saved: seq<File>)
    requires Install.Ready(v, p) && DistinctNumbers(v.levels[p.level]) && Ordered(v.levels[p.level]) && Ordered(saved)
    requires Files(saved) == Surviving(Files(v.levels[p.level]), Accumulate(Pending({}, {}), EditOf(v, p, outs), p.level))
    ensures saved == Install.Installed(v, p, outs).levels[p.level]
  {
    SourceLevel(v, p, outs);
    RemoveKeepsOrder(v.levels[p.level], p.in0);
    OrderedUnique(saved, Install.Installed(v, p, outs).levels[p.level]);
  }
}
