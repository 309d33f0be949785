/** Installing a compaction: the new version keeps the shape every lookup relies on. */
module Install {
  import opened InternalKeys
  import opened Versions
  import opened Selection

  /** A compaction in progress: `in0` from `level`, files [lo, hi) of `level + 1`. */
  datatype Plan = Plan(level: nat, in0: seq<File>, lo: nat, hi: nat)

  function In1(v: Version, p: Plan): seq<File>
    requires p.level + 1 < |v.levels| && p.lo <= p.hi <= |v.levels[p.level + 1]|
  {
    v.levels[p.level + 1][p.lo..p.hi]
  }

  /** What installing needs of the current version. Flushes that happen while the
      compaction runs only add newer files, so they keep it, see FlushKeepsReady. */
  ghost predicate Ready(v: Version, p: Plan) {
    && p.level + 1 < |v.levels|
    && p.lo <= p.hi <= |v.levels[p.level + 1]|
    && p.in0 != [] && (forall g :: g in p.in0 ==> g in v.levels[p.level])
    && (forall f, g :: f in v.levels[p.level] && f !in p.in0 && g in p.in0 ==> Newer(f, g))
    && Meets(v.levels[p.level + 1], p.in0, In1(v, p), p.lo, p.hi)
  }

  lemma GoodInputsReady(v: Version, level: nat, in0: seq<File>, in1: seq<File>) returns (p: Plan)
    requires WellFormed(v) && GoodInputs(v, level, in0, in1)
    ensures Ready(v, p) && p.level == level && p.in0 == in0 && In1(v, p) == in1
  {
    var lo: nat, hi: nat :| Meets(v.levels[level + 1], in0, in1, lo, hi);
    p := Plan(level, in0, lo, hi);
    var files := v.levels[level];
    assert AllValid(files) by { if level == 0 { assert OrderedLevel0(files); } else { assert SortedLevel(files); } }
    SafeRunNewer(files, level, in0);
    ChosenMembers(files, level, in0);
  }

  // ----- removing files from a level -----

  function Remove(fs: seq<File>, gone: seq<File>): seq<File> {
    if fs == [] then []
    else
      var n := |fs| - 1;
      Remove(fs[..n], gone) + if fs[n] in gone then [] else [fs[n]]
  }

  lemma {:induction false} RemoveMembers(fs: seq<File>, gone: seq<File>)
    ensures forall f :: f in Remove(fs, gone) <==> f in fs && f !in gone
  {
    if fs != [] {
      var n := |fs| - 1;
      RemoveMembers(fs[..n], gone);
      assert fs == fs[..n] + [fs[n]];
    }
  }

  lemma {:induction false} RemoveSortedRanges(fs: seq<File>, gone: seq<File>)
    requires SortedRanges(fs)
    ensures SortedRanges(Remove(fs, gone))
  {
    if fs != [] {
      var n := |fs| - 1;
      RemoveSortedRanges(fs[..n], gone);
      RemoveMembers(fs[..n], gone);
      var r := Remove(fs[..n], gone);
      forall i | 0 <= i < |r| ensures Lt(r[i].largest, fs[n].smallest) {
        assert r[i] in fs[..n];
      }
    }
  }

  lemma RemoveValid(fs: seq<File>, gone: seq<File>)
    requires AllValid(fs)
    ensures AllValid(Remove(fs, gone))
  {
    RemoveMembers(fs, gone);
    var r := Remove(fs, gone);
    forall i | 0 <= i < |r| ensures r[i].Valid() { assert r[i] in fs; }
  }

  lemma RemoveOrdered(fs: seq<File>, gone: seq<File>)
    requires OrderedLevel0(fs)
    ensures OrderedLevel0(Remove(fs, gone))
  {
    RemoveDistinct(fs, gone);
    RemoveMembers(fs, gone);
    RemoveValid(fs, gone);
  }

  lemma {:induction false} RemoveDistinct(fs: seq<File>, gone: seq<File>)
    requires DistinctNumbers(fs)
    ensures DistinctNumbers(Remove(fs, gone))
  {
    if fs != [] {
      var n := |fs| - 1;
      RemoveDistinct(fs[..n], gone);
      RemoveMembers(fs[..n], gone);
      var r := Remove(fs[..n], gone);
      forall i | 0 <= i < |r| ensures r[i].number != fs[n].number {
        assert r[i] in fs[..n];
      }
      assert DistinctNumbers(r + [fs[n]]);
    }
  }

  // ----- the new version -----

  function Installed(v: Version, p: Plan, outs: seq<File>): Version
    requires p.level + 1 < |v.levels| && p.lo <= p.hi <= |v.levels[p.level + 1]|
  {
    var files1 := v.levels[p.level + 1];
    Version(v.levels[p.level := Remove(v.levels[p.level], p.in0)]
                    [p.level + 1 := files1[..p.lo] + outs + files1[p.hi..]])
  }

  /** Every output entry comes from an input. */
  ghost predicate FromInputs(v: Version, p: Plan, outs: seq<File>)
    requires Ready(v, p)
  {
    forall o, e :: o in outs && e in o.entries ==>
      exists g :: (g in p.in0 || g in In1(v, p)) && e in g.entries
  }

  lemma NextLevelSorted(v: Version, p: Plan, outs: seq<File>)
    requires WellFormed(v) && Ready(v, p) && SortedLevel(outs) && FromInputs(v, p, outs)
    ensures SortedLevel(Installed(v, p, outs).levels[p.level + 1])
  {
    var files1 := v.levels[p.level + 1];
    forall i, j | 0 <= i < p.lo && 0 <= j < |outs| ensures Lt(files1[i].largest, outs[j].smallest) {
      OutputAfter(v, p, outs, i, j);
    }
    forall i, j | p.hi <= i < |files1| && 0 <= j < |outs| ensures Lt(outs[j].largest, files1[i].smallest) {
      OutputBefore(v, p, outs, i, j);
    }
  }

  /** The input an output's entry comes from, and where it can lie. */
  lemma SourceFile(v: Version, p: Plan, outs: seq<File>, o: File, e: Entry) returns (g: File)
    requires WellFormed(v) && Ready(v, p) && FromInputs(v, p, outs) && o in outs && e in o.entries
    ensures (g in p.in0 || g in In1(v, p)) && e in g.entries && g.Valid()
    ensures !Lt(e.ik, g.smallest) && !Lt(g.largest, e.ik)
  {
    g :| (g in p.in0 || g in In1(v, p)) && e in g.entries;
    InputValid(v, p, g);
    EntryBounds(g, e);
  }

  lemma InputAfter(v: Version, p: Plan, i: nat, g: File)
    requires WellFormed(v) && Ready(v, p) && i < p.lo && (g in p.in0 || g in In1(v, p))
    ensures Lt(v.levels[p.level + 1][i].largest, g.smallest)
  {
    var files1 := v.levels[p.level + 1];
    if g in p.in0 {
      var n :| 0 <= n < |p.in0| && p.in0[n] == g;
      assert files1[i].largest.user < p.in0[n].smallest.user;
    } else {
      var n :| p.lo <= n < p.hi && files1[n] == g;
      assert Lt(files1[i].largest, files1[n].smallest);
    }
  }

  lemma InputBefore(v: Version, p: Plan, i: nat, g: File)
    requires WellFormed(v) && Ready(v, p) && p.hi <= i < |v.levels[p.level + 1]| && (g in p.in0 || g in In1(v, p))
    ensures Lt(g.largest, v.levels[p.level + 1][i].smallest)
  {
    var files1 := v.levels[p.level + 1];
    if g in p.in0 {
      var n :| 0 <= n < |p.in0| && p.in0[n] == g;
      assert p.in0[n].largest.user < files1[i].smallest.user;
    } else {
      var n :| p.lo <= n < p.hi && files1[n] == g;
      assert Lt(files1[n].largest, files1[i].smallest);
    }
  }

  lemma OutputAfter(v: Version, p: Plan, outs: seq<File>, i: nat, j: nat)
    requires WellFormed(v) && Ready(v, p) && SortedLevel(outs) && FromInputs(v, p, outs)
    requires i < p.lo && j < |outs|
    ensures Lt(v.levels[p.level + 1][i].largest, outs[j].smallest)
  {
    var g := SourceFile(v, p, outs, outs[j], outs[j].entries[0]);
    InputAfter(v, p, i, g);
  }

  lemma OutputBefore(v: Version, p: Plan, outs: seq<File>, i: nat, j: nat)
    requires WellFormed(v) && Ready(v, p) && SortedLevel(outs) && FromInputs(v, p, outs)
    requires p.hi <= i < |v.levels[p.level + 1]| && j < |outs|
    ensures Lt(outs[j].largest, v.levels[p.level + 1][i].smallest)
  {
    var g := SourceFile(v, p, outs, outs[j], outs[j].entries[|outs[j].entries| - 1]);
    InputBefore(v, p, i, g);
  }

  lemma InputValid(v: Version, p: Plan, g: File)
    requires WellFormed(v) && Ready(v, p) && (g in p.in0 || g in In1(v, p))
    ensures g.Valid()
    ensures InLevel(v, if g in p.in0 then p.level else p.level + 1, g)
  {
    if g in p.in0 {
      var i :| 0 <= i < |v.levels[p.level]| && v.levels[p.level][i] == g;
    } else {
      var i :| 0 <= i < |v.levels[p.level + 1]| && v.levels[p.level + 1][i] == g;
    }
  }

  /** A file of the new version is an output or an unselected old file. */
  lemma InstalledFiles(v: Version, p: Plan, outs: seq<File>, l: nat, f: File)
    requires Ready(v, p) && InLevel(Installed(v, p, outs), l, f)
    ensures InLevel(v, l, f) || (l == p.level + 1 && f in outs)
    ensures l == p.level ==> InLevel(v, l, f) && f !in p.in0
  {
    RemoveMembers(v.levels[p.level], p.in0);
  }

  lemma DownwardKept(v: Version, p: Plan, outs: seq<File>)
    requires WellFormed(v) && Ready(v, p) && FromInputs(v, p, outs)
    ensures Downward(Installed(v, p, outs))
  {
    var w := Installed(v, p, outs);
    forall i, j, f, g | 0 <= i < j && InLevel(w, i, f) && InLevel(w, j, g) ensures Newer(f, g) {
      InstalledFiles(v, p, outs, i, f);
      InstalledFiles(v, p, outs, j, g);
      forall e, h | e in f.entries && h in g.entries && e.ik.user == h.ik.user ensures e.ik.sn > h.ik.sn {
        if j == p.level + 1 && g in outs {
          OldAboveOutput(v, p, outs, i, f, g, e, h);
        } else if i == p.level + 1 && f in outs {
          OutputAboveOld(v, p, outs, j, f, g, e, h);
        } else {
          assert Newer(f, g);
        }
      }
    }
  }

  lemma OldAboveOutput(v: Version, p: Plan, outs: seq<File>, i: nat, f: File, g: File, e: Entry, h: Entry)
    requires WellFormed(v) && Ready(v, p) && FromInputs(v, p, outs)
    requires i <= p.level && InLevel(v, i, f) && (i == p.level ==> f !in p.in0) && g in outs
    requires e in f.entries && h in g.entries && e.ik.user == h.ik.user
    ensures e.ik.sn > h.ik.sn
  {
    var g' :| (g' in p.in0 || g' in In1(v, p)) && h in g'.entries;
    InputValid(v, p, g');
    assert Newer(f, g');
  }

  lemma OutputAboveOld(v: Version, p: Plan, outs: seq<File>, j: nat, f: File, g: File, e: Entry, h: Entry)
    requires WellFormed(v) && Ready(v, p) && FromInputs(v, p, outs)
    requires p.level + 1 < j && InLevel(v, j, g) && f in outs
    requires e in f.entries && h in g.entries && e.ik.user == h.ik.user
    ensures e.ik.sn > h.ik.sn
  {
    var f' :| (f' in p.in0 || f' in In1(v, p)) && e in f'.entries;
    InputValid(v, p, f');
    assert Newer(f', g);
  }

  /** Every install keeps levels sorted and disjoint and versions ordered downward. */
  lemma InstallKeepsShape(v: Version, p: Plan, outs: seq<File>)
    requires WellFormed(v) && Ready(v, p) && SortedLevel(outs) && FromInputs(v, p, outs)
    ensures WellFormed(Installed(v, p, outs))
  {
    var w := Installed(v, p, outs);
    NextLevelSorted(v, p, outs);
    DownwardKept(v, p, outs);
    if p.level == 0 {
      RemoveOrdered(v.levels[0], p.in0);
    } else {
      RemoveSortedRanges(v.levels[p.level], p.in0);
      RemoveValid(v.levels[p.level], p.in0);
    }
    forall l | 1 <= l < NUM_LEVELS ensures SortedLevel(w.levels[l]) {
      if l != p.level && l != p.level + 1 { assert w.levels[l] == v.levels[l]; }
    }
  }
}
