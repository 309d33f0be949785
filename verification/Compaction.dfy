/** One compaction from selection to install, and the case it gets wrong. */
module Compaction {
  import opened InternalKeys
  import opened Versions
  import opened Selection
  import opened Drop
  import opened DropView
  import opened Install
  import opened CompactionView
  import opened Merge
  import VersionGet

  // ----- a merged stream exists for every choice of inputs -----

  lemma {:induction false} SortSet(S: set<Entry>) returns (es: seq<Entry>)
    requires Distinct(S)
    ensures Sorted(es) && Elems(es) == S
  {
    if S == {} {
      es := [];
    } else {
      var e :| e in S;
      es := SortSet(S - {e});
      forall x | x in es ensures x.ik != e.ik { assert x in Elems(es); }
      InsertSorted(es, e);
      es := InsertEntry(es, e);
    }
  }

  lemma MergedExists(v: Version, p: Plan) returns (es: seq<Entry>)
    requires WellFormed(v) && Ready(v, p)
    ensures Merged(v, p, es)
  {
    var S := FilesElems(p.in0) + FilesElems(In1(v, p));
    VersionGet.VersionDistinct(v);
    forall e | e in S ensures e in VersionElems(v) {
      if e in FilesElems(p.in0) {
        var f :| f in p.in0 && e in f.entries;
        assert f in v.levels[p.level];
      } else {
        var f :| f in In1(v, p) && e in f.entries;
        assert f in v.levels[p.level + 1];
      }
    }
    es := SortSet(S);
  }

  // ----- a whole round -----

  lemma {:induction false} KeptSorted(v: Version, level: nat, t: nat, es: seq<Entry>, n: nat)
    requires Sorted(es) && n <= |es|
    ensures Sorted(Kept(v, level, t, es, n))
  {
    if n > 0 {
      KeptSorted(v, level, t, es, n - 1);
      KeptMembers(v, level, t, es, n - 1);
      var r := Kept(v, level, t, es, n - 1);
      forall i | 0 <= i < |r| ensures Lt(r[i].ik, es[n - 1].ik) {
        assert r[i] in r;
      }
    }
  }

  /** What SetupOtherInputs chose and DoCompactionWork wrote, installed: the shape is
      kept, and readers at or after the smallest snapshot notice nothing exactly when
      no deletion marker is torn from an older value in the next file. */
  lemma CompactionRound(v: Version, level: nat, in0: seq<File>, in1: seq<File>, p: Plan, t: nat, es: seq<Entry>,
                        tables: seq<seq<Entry>>, first: nat, sizes: nat -> nat)
    requires WellFormed(v) && GoodInputs(v, level, in0, in1)
    requires Ready(v, p) && p.level == level && p.in0 == in0 && In1(v, p) == in1 && Merged(v, p, es)
    requires NoEmptyTable(tables) && Flatten(tables) == Kept(v, level, t, es, |es|)
    ensures var w := Installed(v, p, ToFiles(tables, first, sizes));
            && WellFormed(w)
            && (SameView(VersionElems(w), VersionElems(v), t) <==> !Torn(v, p, t, es))
  {
    KeptSorted(v, level, t, es, |es|);
    TablesFormLevel(tables, first, sizes);
    TablesElems(tables, first, sizes);
    CompactionExact(v, p, t, es, ToFiles(tables, first, sizes));
  }

  // ----- the case it gets wrong -----

  const NEWER := Entry(IKey(1, 20), TypeValue, "new")
  const OLDER := Entry(IKey(1, 3), TypeValue, "old")
  const MARKER := Entry(IKey(7, 10), TypeDeletion, "")
  const GHOST := Entry(IKey(7, 5), TypeValue, "deleted long ago")

  const UPPER := File(10, 1, IKey(1, 20), IKey(1, 20), [NEWER])
  const LEFT := File(11, 1, IKey(1, 3), IKey(7, 10), [OLDER, MARKER])
  const RIGHT := File(12, 1, IKey(7, 5), IKey(7, 5), [GHOST])

  /** Level 2 holds the versions of key 7 in two files, the marker in the first. */
  const SPLIT := Version([[], [UPPER], [LEFT, RIGHT], [], [], [], []])
  const SPLIT_PLAN := Plan(1, [UPPER], 0, 1)

  lemma SplitIsWellFormed()
    ensures WellFormed(SPLIT)
  {
    var v := SPLIT;
    assert SortedLevel(v.levels[1]) by { assert UPPER.Valid(); }
    assert SortedLevel(v.levels[2]) by { assert LEFT.Valid() && RIGHT.Valid(); }
    forall i, j, f, g | 0 <= i < j && InLevel(v, i, f) && InLevel(v, j, g) ensures Newer(f, g) {
      assert i == 1 && j == 2;
      assert f == UPPER && (g == LEFT || g == RIGHT);
    }
  }

  lemma SplitIsSelected()
    ensures GoodInputs(SPLIT, 1, [UPPER], [LEFT])
    ensures Ready(SPLIT, SPLIT_PLAN) && In1(SPLIT, SPLIT_PLAN) == [LEFT]
  {
    var files0, files1 := SPLIT.levels[1], SPLIT.levels[2];
    assert files0 == [UPPER] && files1 == [LEFT, RIGHT];
    assert IsRun(files0, 0, 1, [UPPER]) && RunEnds(files0, 1);
    assert files1[0..1] == [LEFT];
    assert Meets(files1, [UPPER], [LEFT], 0, 1);
  }

  /** Key 7 is deleted at every snapshot from 10 on. The inputs are the ones
      SetupOtherInputs picks for UPPER; with smallest snapshot 30 the marker is
      dropped, RIGHT stays, and the old value of key 7 is back. */
  lemma DeletedValueReturns(outs: seq<File>)
    requires SortedLevel(outs)
    requires FilesElems(outs) == KeptElems(SPLIT, 1, 30, [NEWER, OLDER, MARKER])
    ensures WellFormed(SPLIT) && Ready(SPLIT, SPLIT_PLAN)
    ensures !SameView(VersionElems(Installed(SPLIT, SPLIT_PLAN, outs)), VersionElems(SPLIT), 30)
  {
    var v, p, es := SPLIT, SPLIT_PLAN, [NEWER, OLDER, MARKER];
    SplitIsWellFormed();
    SplitIsSelected();
    SplitIsTorn();
    CompactionExact(v, p, 30, es, outs);
  }

  lemma SplitIsTorn()
    requires Ready(SPLIT, SPLIT_PLAN) && In1(SPLIT, SPLIT_PLAN) == [LEFT]
    ensures Merged(SPLIT, SPLIT_PLAN, [NEWER, OLDER, MARKER])
    ensures Torn(SPLIT, SPLIT_PLAN, 30, [NEWER, OLDER, MARKER])
  {
    var v, p, es := SPLIT, SPLIT_PLAN, [NEWER, OLDER, MARKER];
    assert FilesElems([UPPER]) == {NEWER} by {
      assert UPPER in [UPPER] && NEWER in UPPER.entries;
    }
    assert FilesElems([LEFT]) == {OLDER, MARKER} by {
      assert LEFT in [LEFT] && LEFT.entries[0] in LEFT.entries && LEFT.entries[1] in LEFT.entries;
    }
    assert Elems(es) == {NEWER, OLDER, MARKER} by {
      assert es[0] in es && es[1] in es && es[2] in es;
    }
    forall e | e in Rest(v, p) ensures e == GHOST {
      var l, f :| 0 <= l < |v.levels| && f in v.levels[l] && !Selected(v, p, l, f) && e in f.entries;
      assert l == 1 ==> f == UPPER;
      assert l == 2 ==> f == LEFT || f == RIGHT;
    }
    assert BaseLevel(v, 1, 7);
    assert TornAt(v, p, 30, es, 2);
  }
}
