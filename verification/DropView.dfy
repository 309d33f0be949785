/** What the drop rule does to readers. */
module DropView {
  import opened InternalKeys
  import opened Versions
  import opened Drop

  lemma {:induction false} KeptMembers(v: Version, level: nat, t: nat, es: seq<Entry>, n: nat)
    requires n <= |es|
    ensures forall e :: e in Kept(v, level, t, es, n) <==>
              exists i :: 0 <= i < n && es[i] == e && !Dropped(v, level, t, es, i)
  {
    if n > 0 {
      KeptMembers(v, level, t, es, n - 1);
    }
  }

  ghost function KeptElems(v: Version, level: nat, t: nat, es: seq<Entry>): set<Entry> {
    Elems(Kept(v, level, t, es, |es|))
  }

  /** The i-th merged entry is a deletion marker that the loop drops although it is
      the version every reader at the smallest snapshot sees. */
  ghost predicate DropsMarker(R: set<Entry>, v: Version, level: nat, t: nat, es: seq<Entry>, i: nat)
    requires i < |es|
  {
    && es[i].kind == TypeDeletion && es[i].ik.sn <= t && !Hidden(t, es, i)
    && BaseLevel(v, level, es[i].ik.user)
    && (forall e :: e in R && e.ik.user == es[i].ik.user && e.ik.sn <= t ==> e.ik.sn <= es[i].ik.sn)
  }

  /** ... and the entries R outside the compaction hold a value below it. */
  ghost predicate Uncovers(R: set<Entry>, v: Version, level: nat, t: nat, es: seq<Entry>, i: nat)
    requires i < |es|
  {
    DropsMarker(R, v, level, t, es, i) && Look(R, es[i].ik.user, es[i].ik.sn).Found?
  }

  ghost predicate SameView(S: set<Entry>, T: set<Entry>, t: nat) {
    forall k, s :: t <= s ==> Visible(Look(S, k, s)) == Visible(Look(T, k, s))
  }

  /** Below a marker that is not hidden, nothing of its key survives the loop. */
  lemma NothingBelowMarker(v: Version, level: nat, t: nat, es: seq<Entry>, i: nat, e: Entry)
    requires Sorted(es) && i < |es| && es[i].ik.sn <= t
    requires e in KeptElems(v, level, t, es) && e.ik.user == es[i].ik.user
    ensures es[i].ik.sn <= e.ik.sn
  {
    KeptMembers(v, level, t, es, |es|);
    var j :| 0 <= j < |es| && es[j] == e && !Dropped(v, level, t, es, j);
  }

  lemma KeptSubset(v: Version, level: nat, t: nat, es: seq<Entry>)
    ensures KeptElems(v, level, t, es) <= Elems(es)
  {
    KeptMembers(v, level, t, es, |es|);
  }

  /** With the marker gone, the reader falls through to what R holds below it. */
  lemma MarkerGone(R: set<Entry>, v: Version, level: nat, t: nat, es: seq<Entry>, i: nat, s: nat)
    requires Sorted(es) && Distinct(R + Elems(es)) && i < |es| && t <= s
    requires Dropped(v, level, t, es, i) && es[i].ik.sn <= t
    requires Newest(R + Elems(es), es[i].ik.user, s, es[i])
    ensures var O := KeptElems(v, level, t, es);
            Look(R + O, es[i].ik.user, s) == Look(R, es[i].ik.user, es[i].ik.sn)
  {
    var O := KeptElems(v, level, t, es);
    var k, m := es[i].ik.user, es[i];
    KeptSubset(v, level, t, es);
    forall e | e in R + O && Covers(e, k, s) ensures e in R && Covers(e, k, m.ik.sn) {
      assert e.ik.sn <= m.ik.sn;
      if e in O {
        NothingBelowMarker(v, level, t, es, i, e);
        assert e == m;
        DroppedOnce(v, level, t, es, i);
      }
    }
    LookSame(R + O, s, R, m.ik.sn, k);
  }

  lemma DroppedOnce(v: Version, level: nat, t: nat, es: seq<Entry>, i: nat)
    requires Sorted(es) && i < |es| && Dropped(v, level, t, es, i)
    ensures es[i] !in KeptElems(v, level, t, es)
  {
    KeptMembers(v, level, t, es, |es|);
  }

  lemma DroppedNewest(R: set<Entry>, v: Version, level: nat, t: nat, es: seq<Entry>, i: nat, s: nat)
    requires Sorted(es) && Distinct(R + Elems(es)) && t <= s
    requires i < |es| && !Uncovers(R, v, level, t, es, i)
    requires Newest(R + Elems(es), es[i].ik.user, s, es[i]) && es[i] !in KeptElems(v, level, t, es)
    ensures es[i].kind == TypeDeletion
    ensures Visible(Look(R + KeptElems(v, level, t, es), es[i].ik.user, s)) == Missing
  {
    KeptMembers(v, level, t, es, |es|);
    NewestNotHidden(R + Elems(es), t, es, i, s);
    MarkerGone(R, v, level, t, es, i, s);
    assert DropsMarker(R, v, level, t, es, i);
  }

  /** One key, one snapshot: the view survives unless a marker is uncovered. */
  lemma ViewKept(R: set<Entry>, v: Version, level: nat, t: nat, es: seq<Entry>, k: UserKey, s: nat)
    requires Sorted(es) && Distinct(R + Elems(es)) && t <= s
    requires forall i :: 0 <= i < |es| ==> !Uncovers(R, v, level, t, es, i)
    ensures Visible(Look(R + KeptElems(v, level, t, es), k, s)) == Visible(Look(R + Elems(es), k, s))
  {
    var O := KeptElems(v, level, t, es);
    var E := R + Elems(es);
    KeptSubset(v, level, t, es);
    if c :| c in E && Covers(c, k, s) {
      var m := NewestExists(E, k, s, c);
      LookIs(E, k, s, m);
      if m in R + O {
        LookIs(R + O, k, s, m);
      } else {
        var i :| 0 <= i < |es| && es[i] == m;
        DroppedNewest(R, v, level, t, es, i, s);
      }
    } else {
      LookNone(E, k, s);
      LookNone(R + O, k, s);
    }
  }

  lemma NewestNotHidden(E: set<Entry>, t: nat, es: seq<Entry>, i: nat, s: nat)
    requires Sorted(es) && Elems(es) <= E && i < |es| && t <= s
    requires Newest(E, es[i].ik.user, s, es[i])
    ensures !Hidden(t, es, i)
  {
    assert i > 0 ==> es[i - 1] in E;
  }

  /** An uncovered value becomes visible at the smallest snapshot. */
  lemma ViewLost(R: set<Entry>, v: Version, level: nat, t: nat, es: seq<Entry>, i: nat)
    requires Sorted(es) && Distinct(R + Elems(es)) && i < |es| && Uncovers(R, v, level, t, es, i)
    ensures var k := es[i].ik.user;
            Visible(Look(R + KeptElems(v, level, t, es), k, t)) != Visible(Look(R + Elems(es), k, t))
  {
    var E := R + Elems(es);
    var k := es[i].ik.user;
    forall e | e in E && Covers(e, k, t) ensures e.ik.sn <= es[i].ik.sn {
      if e in Elems(es) {
        var j :| 0 <= j < |es| && es[j] == e;
      }
    }
    assert Newest(E, k, t, es[i]);
    LookIs(E, k, t, es[i]);
    MarkerGone(R, v, level, t, es, i, t);
  }

  /** Exactly when merging leaves every reader at or after the smallest snapshot alone. */
  lemma DropExact(R: set<Entry>, v: Version, level: nat, t: nat, es: seq<Entry>)
    requires Sorted(es) && Distinct(R + Elems(es))
    ensures SameView(R + KeptElems(v, level, t, es), R + Elems(es), t)
            <==> forall i :: 0 <= i < |es| ==> !Uncovers(R, v, level, t, es, i)
  {
    if forall i :: 0 <= i < |es| ==> !Uncovers(R, v, level, t, es, i) {
      forall k, s | t <= s
        ensures Visible(Look(R + KeptElems(v, level, t, es), k, s)) == Visible(Look(R + Elems(es), k, s))
      {
        ViewKept(R, v, level, t, es, k, s);
      }
    } else {
      var i :| 0 <= i < |es| && Uncovers(R, v, level, t, es, i);
      ViewLost(R, v, level, t, es, i);
    }
  }
}
