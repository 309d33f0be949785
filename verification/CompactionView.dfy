/** A whole compaction, seen by readers: preserved, and exactly when. */
module CompactionView {
  import opened InternalKeys
  import opened Versions
  import opened Overlap
  import opened Drop
  import opened DropView
  import opened Install
  import VersionGet

  ghost predicate Selected(v: Version, p: Plan, l: nat, f: File)
    requires Ready(v, p)
  {
    (l == p.level && f in p.in0) || (l == p.level + 1 && f in In1(v, p))
  }

  /** The entries that the compaction leaves where they are. */
  ghost function Rest(v: Version, p: Plan): set<Entry>
    requires Ready(v, p)
  {
    set l, f, e | 0 <= l < |v.levels| && f in v.levels[l] && !Selected(v, p, l, f) && e in f.entries :: e
  }

  /** MakeInputIterator: the inputs as one sorted stream. */
  ghost predicate Merged(v: Version, p: Plan, es: seq<Entry>)
    requires Ready(v, p)
  {
    Sorted(es) && Elems(es) == FilesElems(p.in0) + FilesElems(In1(v, p))
  }

  lemma ElemsSplit(v: Version, p: Plan, es: seq<Entry>)
    requires Ready(v, p) && Merged(v, p, es)
    ensures VersionElems(v) == Rest(v, p) + Elems(es)
  {
    forall e | e in VersionElems(v) ensures e in Rest(v, p) + Elems(es) {
      var l, f :| 0 <= l < |v.levels| && f in v.levels[l] && e in f.entries;
      if Selected(v, p, l, f) { assert e in FilesElems(p.in0) + FilesElems(In1(v, p)); }
    }
    forall e | e in Elems(es) ensures e in VersionElems(v) {
      if e in FilesElems(p.in0) {
        var f :| f in p.in0 && e in f.entries;
        assert f in v.levels[p.level];
      } else {
        var f :| f in In1(v, p) && e in f.entries;
        assert f in v.levels[p.level + 1];
      }
    }
  }

  lemma StaysAside(v: Version, p: Plan, i: nat)
    requires WellFormed(v) && Ready(v, p) && i < |v.levels[p.level + 1]| && !(p.lo <= i < p.hi)
    ensures v.levels[p.level + 1][i] !in In1(v, p)
  {
    var files1 := v.levels[p.level + 1];
    assert files1[i].RangeOk();
    forall n | p.lo <= n < p.hi ensures files1[n] != files1[i] {
      assert files1[n].RangeOk();
    }
  }

  lemma InstalledFilesExactly(v: Version, p: Plan, outs: seq<File>, l: nat, f: File)
    requires WellFormed(v) && Ready(v, p)
    ensures InLevel(Installed(v, p, outs), l, f) <==>
            (InLevel(v, l, f) && !Selected(v, p, l, f)) || (l == p.level + 1 && f in outs)
  {
    RemoveMembers(v.levels[p.level], p.in0);
    if l == p.level + 1 { NextLevelFiles(v, p, outs, f); }
  }

  lemma NextLevelFiles(v: Version, p: Plan, outs: seq<File>, f: File)
    requires WellFormed(v) && Ready(v, p)
    ensures f in Installed(v, p, outs).levels[p.level + 1] <==>
            (f in v.levels[p.level + 1] && f !in In1(v, p)) || f in outs
  {
    var files1 := v.levels[p.level + 1];
    forall i | 0 <= i < |files1| && !(p.lo <= i < p.hi) ensures files1[i] !in files1[p.lo..p.hi] {
      StaysAside(v, p, i);
    }
    SpliceMembers(files1, p.lo, p.hi, outs, f);
  }

  lemma SpliceMembers(fs: seq<File>, lo: nat, hi: nat, outs: seq<File>, f: File)
    requires lo <= hi <= |fs|
    requires forall i :: 0 <= i < |fs| && !(lo <= i < hi) ==> fs[i] !in fs[lo..hi]
    ensures f in fs[..lo] + outs + fs[hi..] <==> (f in fs && f !in fs[lo..hi]) || f in outs
  {
    assert fs == fs[..lo] + fs[lo..hi] + fs[hi..];
    assert f in fs <==> f in fs[..lo] || f in fs[lo..hi] || f in fs[hi..];
  }

  lemma InstalledElems(v: Version, p: Plan, outs: seq<File>)
    requires WellFormed(v) && Ready(v, p)
    ensures VersionElems(Installed(v, p, outs)) == Rest(v, p) + FilesElems(outs)
  {
    var w := Installed(v, p, outs);
    forall e | e in VersionElems(w) ensures e in Rest(v, p) + FilesElems(outs) {
      var l, f :| 0 <= l < |w.levels| && f in w.levels[l] && e in f.entries;
      InstalledFilesExactly(v, p, outs, l, f);
    }
    forall e | e in Rest(v, p) ensures e in VersionElems(w) {
      var l, f :| 0 <= l < |v.levels| && f in v.levels[l] && !Selected(v, p, l, f) && e in f.entries;
      InstalledFilesExactly(v, p, outs, l, f);
    }
    forall e | e in FilesElems(outs) ensures e in VersionElems(w) {
      var f :| f in outs && e in f.entries;
      InstalledFilesExactly(v, p, outs, p.level + 1, f);
    }
  }

  // ----- the one way a reader can be hurt -----

  /** The i-th merged entry is a deletion marker that is dropped, and the next file of
      level + 1, left out of the compaction, starts with an older value of that key. */
  ghost predicate TornAt(v: Version, p: Plan, t: nat, es: seq<Entry>, i: nat)
    requires Ready(v, p) && i < |es|
  {
    var files1 := v.levels[p.level + 1];
    && p.lo < p.hi < |files1|
    && files1[p.hi].smallest.user == es[i].ik.user
    && |files1[p.hi].entries| > 0 && files1[p.hi].entries[0].kind == TypeValue
    && DropsMarker(Rest(v, p), v, p.level, t, es, i)
  }

  ghost predicate Torn(v: Version, p: Plan, t: nat, es: seq<Entry>)
    requires Ready(v, p)
  {
    exists i :: 0 <= i < |es| && TornAt(v, p, t, es, i)
  }

  lemma SourceOf(v: Version, p: Plan, es: seq<Entry>, i: nat) returns (g: File)
    requires WellFormed(v) && Ready(v, p) && Merged(v, p, es) && i < |es|
    ensures (g in p.in0 || g in In1(v, p)) && es[i] in g.entries && g.Valid()
    ensures InLevel(v, if g in p.in0 then p.level else p.level + 1, g)
  {
    assert es[i] in Elems(es);
    if es[i] in FilesElems(p.in0) {
      g :| g in p.in0 && es[i] in g.entries;
    } else {
      g :| g in In1(v, p) && es[i] in g.entries;
    }
    InputValid(v, p, g);
  }

  /** An older version outside the compaction, of a key with nothing two levels
      down, can only sit right of the selected run on level + 1. */
  lemma OlderIsRight(v: Version, p: Plan, es: seq<Entry>, i: nat, l: nat, f: File, e: Entry)
    requires WellFormed(v) && Ready(v, p) && Merged(v, p, es) && i < |es|
    requires InLevel(v, l, f) && !Selected(v, p, l, f) && e in f.entries
    requires e.ik.user == es[i].ik.user && e.ik.sn <= es[i].ik.sn && BaseLevel(v, p.level, e.ik.user)
    ensures l == p.level + 1 && p.lo < p.hi < |v.levels[l]|
    ensures v.levels[l][p.hi].smallest.user == e.ik.user && !Lt(e.ik, v.levels[l][p.hi].smallest)
  {
    var g := SourceOf(v, p, es, i);
    if l == p.level + 1 {
      OlderNeighbour(v, p, g, es[i], f, e);
    } else if l > p.level + 1 {
      DeepSpans(v, l, f, e);
    }
  }

  lemma DeepSpans(v: Version, l: nat, f: File, e: Entry)
    requires WellFormed(v) && 1 <= l && InLevel(v, l, f) && e in f.entries
    ensures Spans(f, e.ik.user)
  {
    var i :| 0 <= i < |v.levels[l]| && v.levels[l][i] == f;
    EntryBounds(f, e);
  }

  lemma OlderNeighbour(v: Version, p: Plan, g: File, m: Entry, f: File, e: Entry)
    requires WellFormed(v) && Ready(v, p) && g.Valid() && (g in p.in0 || g in In1(v, p)) && m in g.entries
    requires f in v.levels[p.level + 1] && f !in In1(v, p) && e in f.entries
    requires e.ik.user == m.ik.user && e.ik.sn <= m.ik.sn
    ensures var files1 := v.levels[p.level + 1];
            && p.lo < p.hi < |files1|
            && files1[p.hi].smallest.user == e.ik.user && !Lt(e.ik, files1[p.hi].smallest)
  {
    var files1 := v.levels[p.level + 1];
    var n :| 0 <= n < |files1| && files1[n] == f;
    EntryBounds(f, e);
    EntryBounds(g, m);
    assert !(p.lo <= n < p.hi);
    assert g !in p.in0;
    if g in In1(v, p) {
      var j :| p.lo <= j < p.hi && files1[j] == g;
      assert p.hi <= n;
      NeighbourChain(files1, j, p.hi, n, m, e);
    }
  }

  lemma NeighbourChain(files1: seq<File>, j: nat, hi: nat, n: nat, m: Entry, e: Entry)
    requires SortedLevel(files1) && j < hi <= n < |files1|
    requires m in files1[j].entries && e in files1[n].entries && m.ik.user == e.ik.user
    ensures files1[hi].smallest.user == e.ik.user && !Lt(e.ik, files1[hi].smallest)
  {
    EntryBounds(files1[j], m);
    EntryBounds(files1[n], e);
    UserRanges(files1, j, hi);
    assert files1[hi].RangeOk();
    if hi < n { assert Lt(files1[hi].largest, files1[n].smallest); }
  }

  lemma TornUncovers(v: Version, p: Plan, t: nat, es: seq<Entry>, i: nat)
    requires WellFormed(v) && Ready(v, p) && Merged(v, p, es) && i < |es|
    requires TornAt(v, p, t, es, i)
    ensures Uncovers(Rest(v, p), v, p.level, t, es, i)
  {
    var files1, k, R := v.levels[p.level + 1], es[i].ik.user, Rest(v, p);
    var f := files1[p.hi];
    var h := f.entries[0];
    NeighbourInRest(v, p);
    MarkerAboveNeighbour(v, p, es, i);
    forall e | e in R && Covers(e, k, es[i].ik.sn) ensures e.ik.sn <= h.ik.sn {
      var l, f' :| 0 <= l < |v.levels| && f' in v.levels[l] && !Selected(v, p, l, f') && e in f'.entries;
      OlderIsRight(v, p, es, i, l, f', e);
    }
    assert Newest(R, k, es[i].ik.sn, h);
    RestDistinct(v, p);
    LookIs(R, k, es[i].ik.sn, h);
  }

  lemma RestDistinct(v: Version, p: Plan)
    requires WellFormed(v) && Ready(v, p)
    ensures Distinct(Rest(v, p))
  {
    VersionGet.VersionDistinct(v);
    assert Rest(v, p) <= VersionElems(v);
  }

  lemma MarkerAboveNeighbour(v: Version, p: Plan, es: seq<Entry>, i: nat)
    requires WellFormed(v) && Ready(v, p) && Merged(v, p, es) && i < |es|
    requires p.hi < |v.levels[p.level + 1]| && v.levels[p.level + 1][p.hi].smallest.user == es[i].ik.user
    ensures v.levels[p.level + 1][p.hi].smallest.sn < es[i].ik.sn
  {
    var files1 := v.levels[p.level + 1];
    var g := SourceOf(v, p, es, i);
    EntryBounds(g, es[i]);
    assert g !in p.in0;
    var j :| p.lo <= j < p.hi && files1[j] == g;
    assert Lt(files1[j].largest, files1[p.hi].smallest);
  }

  lemma NeighbourInRest(v: Version, p: Plan)
    requires WellFormed(v) && Ready(v, p) && p.hi < |v.levels[p.level + 1]|
    ensures var f := v.levels[p.level + 1][p.hi]; f.Valid() && f.entries[0] in Rest(v, p)
  {
    StaysAside(v, p, p.hi);
    var f := v.levels[p.level + 1][p.hi];
    assert f in v.levels[p.level + 1] && f.entries[0] in f.entries;
  }

  lemma NewestOlderIsNeighbour(v: Version, p: Plan, es: seq<Entry>, i: nat, e: Entry)
    requires WellFormed(v) && Ready(v, p) && Merged(v, p, es) && i < |es|
    requires BaseLevel(v, p.level, es[i].ik.user)
    requires Newest(Rest(v, p), es[i].ik.user, es[i].ik.sn, e)
    ensures var files1 := v.levels[p.level + 1];
            && p.lo < p.hi < |files1| && files1[p.hi].smallest.user == es[i].ik.user
            && |files1[p.hi].entries| > 0 && files1[p.hi].entries[0] == e
  {
    var files1, R := v.levels[p.level + 1], Rest(v, p);
    var l, f :| 0 <= l < |v.levels| && f in v.levels[l] && !Selected(v, p, l, f) && e in f.entries;
    OlderIsRight(v, p, es, i, l, f, e);
    MarkerAboveNeighbour(v, p, es, i);
    NeighbourInRest(v, p);
    var h := files1[p.hi].entries[0];
    assert Covers(h, es[i].ik.user, es[i].ik.sn);
    RestDistinct(v, p);
  }

  lemma UncoversTorn(v: Version, p: Plan, t: nat, es: seq<Entry>, i: nat)
    requires WellFormed(v) && Ready(v, p) && Merged(v, p, es) && i < |es|
    requires Uncovers(Rest(v, p), v, p.level, t, es, i)
    ensures TornAt(v, p, t, es, i)
  {
    var files1, k, R := v.levels[p.level + 1], es[i].ik.user, Rest(v, p);
    var e :| Newest(R, k, es[i].ik.sn, e);
    RestDistinct(v, p);
    LookIs(R, k, es[i].ik.sn, e);
    NewestOlderIsNeighbour(v, p, es, i, e);
  }

  /** Replacing the inputs by the outputs of the drop loop keeps the shape of the
      version, and keeps every read at or after the smallest snapshot if and only if
      no torn marker exists in the version before it. */
  lemma CompactionExact(v: Version, p: Plan, t: nat, es: seq<Entry>, outs: seq<File>)
    requires WellFormed(v) && Ready(v, p) && Merged(v, p, es)
    requires SortedLevel(outs) && FilesElems(outs) == KeptElems(v, p.level, t, es)
    ensures WellFormed(Installed(v, p, outs))
    ensures SameView(VersionElems(Installed(v, p, outs)), VersionElems(v), t) <==> !Torn(v, p, t, es)
  {
    OutputsFromInputs(v, p, t, es, outs);
    InstallKeepsShape(v, p, outs);
    InstalledElems(v, p, outs);
    ElemsSplit(v, p, es);
    VersionGet.VersionDistinct(v);
    DropExact(Rest(v, p), v, p.level, t, es);
    forall i | 0 <= i < |es| ensures Uncovers(Rest(v, p), v, p.level, t, es, i) <==> TornAt(v, p, t, es, i) {
      if TornAt(v, p, t, es, i) { TornUncovers(v, p, t, es, i); }
      if Uncovers(Rest(v, p), v, p.level, t, es, i) { UncoversTorn(v, p, t, es, i); }
    }
  }

  lemma OutputsFromInputs(v: Version, p: Plan, t: nat, es: seq<Entry>, outs: seq<File>)
    requires WellFormed(v) && Ready(v, p) && Merged(v, p, es)
    requires FilesElems(outs) == KeptElems(v, p.level, t, es)
    ensures FromInputs(v, p, outs)
  {
    KeptSubset(v, p.level, t, es);
    forall o, e | o in outs && e in o.entries
      ensures exists g :: (g in p.in0 || g in In1(v, p)) && e in g.entries
    {
      assert e in FilesElems(outs);
      if e in FilesElems(p.in0) {
        var g :| g in p.in0 && e in g.entries;
      } else {
        var g :| g in In1(v, p) && e in g.entries;
      }
    }
  }
}
