/** File numbers of a version: unique, and kept so by flushes and compactions. With the
    order of level 0 this is what makes the Builder's result the installed version. */
module FileNumbers {
  import opened Versions
  import opened Install
  import opened CompactionView
  import Builder
  import InstallEdit

  /** No number names two files of the version. */
  ghost predicate UniqueNumbers(v: Version) {
    && (forall l :: 0 <= l < |v.levels| ==> DistinctNumbers(v.levels[l]))
    && (forall l, m, f, g :: InLevel(v, l, f) && InLevel(v, m, g) && f.number == g.number ==> l == m)
  }

  lemma SameFile(v: Version, l: nat, f: File, m: nat, g: File)
    requires UniqueNumbers(v) && InLevel(v, l, f) && InLevel(v, m, g) && f.number == g.number
    ensures l == m && f == g
  {
    var i :| 0 <= i < |v.levels[l]| && v.levels[l][i] == f;
    var j :| 0 <= j < |v.levels[m]| && v.levels[m][j] == g;
  }

  /** No file that stays has the number of an output. */
  ghost predicate FreshOuts(v: Version, p: Plan, outs: seq<File>)
    requires Ready(v, p)
  {
    && DistinctNumbers(outs)
    && forall l, f, o :: InLevel(v, l, f) && !Selected(v, p, l, f) && o in outs ==> f.number != o.number
  }

  lemma SpliceDistinct(fs: seq<File>, lo: nat, hi: nat, outs: seq<File>)
    requires lo <= hi <= |fs| && DistinctNumbers(fs) && DistinctNumbers(outs)
    requires forall i, o :: 0 <= i < |fs| && !(lo <= i < hi) && o in outs ==> fs[i].number != o.number
    ensures DistinctNumbers(fs[..lo] + outs + fs[hi..])
  {
  }

  lemma InstalledDistinct(v: Version, p: Plan, outs: seq<File>, l: nat)
    requires WellFormed(v) && Ready(v, p) && UniqueNumbers(v) && FreshOuts(v, p, outs) && l < |v.levels|
    ensures DistinctNumbers(Installed(v, p, outs).levels[l])
  {
    if l == p.level {
      RemoveDistinct(v.levels[l], p.in0);
    } else if l == p.level + 1 {
      var fs := v.levels[l];
      forall i, o | 0 <= i < |fs| && !(p.lo <= i < p.hi) && o in outs ensures fs[i].number != o.number {
        StaysAside(v, p, i);
        assert InLevel(v, l, fs[i]) && !Selected(v, p, l, fs[i]);
      }
      SpliceDistinct(fs, p.lo, p.hi, outs);
    }
  }

  lemma InstalledUnique(v: Version, p: Plan, outs: seq<File>)
    requires WellFormed(v) && Ready(v, p) && UniqueNumbers(v) && FreshOuts(v, p, outs)
    ensures UniqueNumbers(Installed(v, p, outs))
  {
    var w := Installed(v, p, outs);
    forall l | 0 <= l < |w.levels| ensures DistinctNumbers(w.levels[l]) {
      InstalledDistinct(v, p, outs, l);
    }
    forall l, m, f, g | InLevel(w, l, f) && InLevel(w, m, g) && f.number == g.number ensures l == m {
      InstalledFilesExactly(v, p, outs, l, f);
      InstalledFilesExactly(v, p, outs, m, g);
    }
  }

  /** A moved file keeps its number, which is no other file's. */
  lemma MoveFresh(v: Version, p: Plan)
    requires Ready(v, p) && UniqueNumbers(v) && |p.in0| == 1
    ensures FreshOuts(v, p, p.in0)
  {
    forall l, f, o | InLevel(v, l, f) && !Selected(v, p, l, f) && o in p.in0 ensures f.number != o.number {
      if f.number == o.number { SameFile(v, l, f, p.level, o); }
    }
  }

  lemma InsertDistinct(fs: seq<File>, f: File, pos: nat)
    requires pos <= |fs| && DistinctNumbers(fs) && forall g :: g in fs ==> g.number != f.number
    ensures DistinctNumbers(fs[..pos] + [f] + fs[pos..])
  {
  }

  // ----- the Builder's result -----

  /** Level 0 lies in the order of the Builder; for the other levels that is SortedLevel. */
  ghost predicate Listed(v: Version) {
    |v.levels| > 0 && Builder.Ordered(v.levels[0])
  }

  lemma LevelsOrdered(v: Version, l: nat)
    requires WellFormed(v) && Listed(v) && l < |v.levels|
    ensures Builder.Ordered(v.levels[l])
  {
    if l > 0 { InstallEdit.RangesOrdered(v.levels[l]); }
  }

  lemma InstalledListed(v: Version, p: Plan, outs: seq<File>)
    requires Listed(v) && Ready(v, p)
    ensures Listed(Installed(v, p, outs))
  {
    InstallEdit.RemoveKeepsOrder(v.levels[0], p.in0);
  }

  /** The level compacted into has none of the outputs' numbers. */
  ghost predicate Apart(v: Version, p: Plan, outs: seq<File>)
    requires Ready(v, p)
  {
    DistinctNumbers(outs) && forall f, o :: f in v.levels[p.level + 1] && o in outs ==> f.number != o.number
  }

  lemma MoveApart(v: Version, p: Plan)
    requires Ready(v, p) && UniqueNumbers(v) && |p.in0| == 1
    ensures Apart(v, p, p.in0)
  {
    forall f, o | f in v.levels[p.level + 1] && o in p.in0 ensures f.number != o.number {
      assert InLevel(v, p.level + 1, f) && InLevel(v, p.level, o);
    }
  }

  lemma NumbersApart(fs: seq<File>, gs: seq<File>)
    requires forall f, g :: f in fs && g in gs ==> f.number != g.number
    ensures Builder.Numbers(Builder.Files(fs)) !! Builder.Numbers(Builder.Files(gs))
  {
  }

  /** What one edit leaves of a level. */
  ghost function After(v: Version, e: Builder.VersionEdit, l: nat): set<File>
    requires l < |v.levels|
  {
    Builder.Surviving(Builder.Files(v.levels[l]), Builder.Accumulate(Builder.Pending({}, {}), e, l))
  }

  /** The edit does nothing to this level. */
  lemma Untouched(v: Version, e: Builder.VersionEdit, l: nat)
    requires l < |v.levels| && Builder.DeletedAt(e, l) == {} && Builder.AddedAt(e, l) == {}
    ensures After(v, e, l) == Builder.Files(v.levels[l])
  {
  }

  lemma InstalledLevel(v: Version, p: Plan, outs: seq<File>, l: nat)
    requires WellFormed(v) && Ready(v, p) && UniqueNumbers(v) && Apart(v, p, outs) && l < |v.levels|
    ensures Builder.Files(Installed(v, p, outs).levels[l]) == After(v, InstallEdit.EditOf(v, p, outs), l)
  {
    if l == p.level {
      InstallEdit.SourceLevel(v, p, outs);
    } else if l == p.level + 1 {
      NumbersApart(outs, v.levels[l]);
      InstallEdit.TargetLevel(v, p, outs);
    } else {
      InstallEdit.EditAt(v, p, outs, l);
      Untouched(v, InstallEdit.EditOf(v, p, outs), l);
    }
  }

  lemma OneEdit(v: Version, e: Builder.VersionEdit, w: Version)
    requires |w.levels| == |v.levels|
    requires forall l :: 0 <= l < |v.levels| ==> Builder.Ordered(w.levels[l]) && Builder.Files(w.levels[l]) == After(v, e, l)
    ensures Builder.HasFiles(w, v, [e])
  {
    forall l | 0 <= l < |v.levels| ensures Builder.OneByOne(Builder.Files(v.levels[l]), [e], l) == After(v, e, l) {
      assert [e][..0] == [];
    }
  }

  /** The installed version is the one the logged edit describes. */
  lemma InstallIsLogged(v: Version, p: Plan, outs: seq<File>)
    requires WellFormed(v) && Ready(v, p) && UniqueNumbers(v) && Listed(v) && Apart(v, p, outs)
    requires WellFormed(Installed(v, p, outs))
    ensures Builder.HasFiles(Installed(v, p, outs), v, [InstallEdit.EditOf(v, p, outs)])
  {
    var w := Installed(v, p, outs);
    InstalledListed(v, p, outs);
    forall l | 0 <= l < |v.levels|
      ensures Builder.Ordered(w.levels[l]) && Builder.Files(w.levels[l]) == After(v, InstallEdit.EditOf(v, p, outs), l)
    {
      LevelsOrdered(w, l);
      InstalledLevel(v, p, outs, l);
    }
    OneEdit(v, InstallEdit.EditOf(v, p, outs), w);
  }
}
