/** The value-file dependency map: a union-find forest with path compression
    (impl/dependency.h:391-424). */
module Forest {

  type Map = map<nat, nat>

  /** Ranks fall along every link, so every chain ends. */
  ghost predicate Ranked(m: Map, rank: nat -> nat) {
    forall x :: x in m && m[x] != x ==> rank(m[x]) < rank(x)
  }

  /** Where the chain from x ends. */
  ghost function Root(m: Map, rank: nat -> nat, x: nat): nat
    requires Ranked(m, rank)
    decreases rank(x)
  {
    if x !in m || m[x] == x then x else Root(m, rank, m[x])
  }

  lemma {:induction false} RootEnds(m: Map, rank: nat -> nat, x: nat)
    requires Ranked(m, rank)
    ensures var r := Root(m, rank, x); (r in m ==> m[r] == r) && rank(r) <= rank(x) && (r == x || rank(r) < rank(x))
    decreases rank(x)
  {
    if x in m && m[x] != x { RootEnds(m, rank, m[x]); }
  }

  lemma RootTwice(m: Map, rank: nat -> nat, x: nat)
    requires Ranked(m, rank)
    ensures Root(m, rank, Root(m, rank, x)) == Root(m, rank, x)
  {
    RootEnds(m, rank, x);
  }

  lemma {:induction false} RankFree(m: Map, a: nat -> nat, b: nat -> nat, x: nat)
    requires Ranked(m, a) && Ranked(m, b)
    ensures Root(m, a, x) == Root(m, b, x)
    decreases a(x)
  {
    if x in m && m[x] != x { RankFree(m, a, b, m[x]); }
  }

  ghost predicate SameRoots(m: Map, m': Map, rank: nat -> nat)
    requires Ranked(m, rank) && Ranked(m', rank)
  {
    forall y: nat :: Root(m', rank, y) == Root(m, rank, y)
  }

  /** Pointing a node straight at its root changes no root; so does listing a node that
      was not listed as its own parent. */
  lemma Compress(m: Map, rank: nat -> nat, c: nat)
    requires Ranked(m, rank)
    ensures var m' := m[c := Root(m, rank, c)]; Ranked(m', rank) && SameRoots(m, m', rank)
  {
    RootEnds(m, rank, c);
    var m' := m[c := Root(m, rank, c)];
    forall y: nat ensures Root(m', rank, y) == Root(m, rank, y) {
      CompressAt(m, rank, c, y);
    }
  }

  lemma {:induction false} CompressAt(m: Map, rank: nat -> nat, c: nat, y: nat)
    requires Ranked(m, rank) && Ranked(m[c := Root(m, rank, c)], rank)
    ensures Root(m[c := Root(m, rank, c)], rank, y) == Root(m, rank, y)
    decreases rank(y)
  {
    var m', r := m[c := Root(m, rank, c)], Root(m, rank, c);
    RootEnds(m, rank, c);
    if y == c {
      assert Root(m', rank, r) == r;
    } else if y in m && m[y] != y {
      CompressAt(m, rank, c, m[y]);
    }
  }

  /** Ranks for the forest in which tree r2 hangs below r1. */
  ghost function MergeRank(m: Map, rank: nat -> nat, r1: nat, r2: nat): nat -> nat
    requires Ranked(m, rank)
  {
    (y: nat) => if Root(m, rank, y) == r2 then rank(y) + rank(r1) + 1 else rank(y)
  }

  /** Linking root r2 to root r1 moves the whole tree of r2, and nothing else. */
  lemma Link(m: Map, rank: nat -> nat, r1: nat, r2: nat)
    requires Ranked(m, rank) && Root(m, rank, r1) == r1 && Root(m, rank, r2) == r2 && r1 != r2
    ensures var m', rank' := m[r2 := r1], MergeRank(m, rank, r1, r2);
            && Ranked(m', rank')
            && forall y: nat :: Root(m', rank', y) == if Root(m, rank, y) == r2 then r1 else Root(m, rank, y)
  {
    var m', rank' := m[r2 := r1], MergeRank(m, rank, r1, r2);
    assert Ranked(m', rank');
    RootEnds(m, rank, r1);
    RootEnds(m, rank, r2);
    forall y: nat ensures Root(m', rank', y) == if Root(m, rank, y) == r2 then r1 else Root(m, rank, y) {
      LinkAt(m, rank, r1, r2, y);
    }
  }

  lemma {:induction false} LinkAt(m: Map, rank: nat -> nat, r1: nat, r2: nat, y: nat)
    requires Ranked(m, rank) && Root(m, rank, r1) == r1 && Root(m, rank, r2) == r2 && r1 != r2
    requires Ranked(m[r2 := r1], MergeRank(m, rank, r1, r2))
    ensures Root(m[r2 := r1], MergeRank(m, rank, r1, r2), y) == if Root(m, rank, y) == r2 then r1 else Root(m, rank, y)
    decreases rank(y)
  {
    var m', rank' := m[r2 := r1], MergeRank(m, rank, r1, r2);
    RootEnds(m, rank, r1);
    RootEnds(m, rank, r2);
    assert Root(m', rank', r1) == r1;
    if y == r2 {
      assert Root(m', rank', y) == Root(m', rank', r1);
    } else if y in m && m[y] != y {
      LinkAt(m, rank, r1, r2, m[y]);
    }
  }

  /** y is on the chain from x. */
  ghost predicate Leads(m: Map, rank: nat -> nat, x: nat, y: nat)
    requires Ranked(m, rank)
    decreases rank(x)
  {
    x == y || (x in m && m[x] != x && Leads(m, rank, m[x], y))
  }

  /** Every node of the chain from x points at the root, and no other has changed. */
  ghost predicate Flattened(m: Map, rank: nat -> nat, x: nat, m': Map, root: nat)
    requires Ranked(m, rank)
  {
    forall y: nat ::
      if Leads(m, rank, x, y) then y in m' && m'[y] == root
      else (y in m' <==> y in m) && (y in m ==> m'[y] == m[y])
  }

  lemma FlattenedMore(m: Map, rank: nat -> nat, x: nat, m': Map, root: nat)
    requires Ranked(m, rank) && x in m && m[x] != x && Flattened(m, rank, m[x], m', root)
    ensures Flattened(m, rank, x, m'[x := root], root)
  {
  }

  class Dependency {
    var depMap: Map
    ghost var rank: nat -> nat

    ghost predicate Valid()
      reads this
    {
      Ranked(depMap, rank)
    }

    constructor ()
      ensures Valid() && depMap == map[]
    {
      depMap, rank := map[], (x: nat) => 0;
    }

    /** The end of the chain from child; the map may change, but no root does. */
    method FindParent(child: nat) returns (root: nat)
      requires Valid()
      modifies this
      ensures Valid() && rank == old(rank) && SameRoots(old(depMap), depMap, rank)
      ensures root == Root(old(depMap), rank, child) && Flattened(old(depMap), rank, child, depMap, root)
      ensures child in depMap && depMap.Keys >= old(depMap.Keys)
      decreases rank(child)
    {
      ghost var m := depMap;
      if child !in depMap {
        Compress(depMap, rank, child);
        depMap := depMap[child := child];
      }
      if depMap[child] != child {
        ghost var m1 := depMap;
        var r := FindParent(depMap[child]);
        assert r == Root(m1, rank, child) == Root(depMap, rank, child);
        Compress(depMap, rank, child);
        FlattenedMore(m1, rank, child, depMap, r);
        depMap := depMap[child := r];
      }
      root := depMap[child];
      assert root == Root(depMap, rank, child) by { RootEnds(depMap, rank, child); }
    }

    /** Hangs the tree of child below the root of parent. */
    method SetParent(parent: nat, child: nat)
      requires Valid()
      modifies this
      ensures Valid()
      ensures forall y: nat :: Root(depMap, rank, y) == Joined(old(depMap), old(rank), parent, child, y)
      ensures parent in depMap && child in depMap && depMap.Keys >= old(depMap.Keys)
    {
      RootTwice(depMap, rank, parent);
      RootTwice(depMap, rank, child);
      var root1 := FindParent(parent);
      var root2 := FindParent(child);
      if root1 == root2 { return; }
      Link(depMap, rank, root1, root2);
      rank := MergeRank(depMap, rank, root1, root2);
      depMap := depMap[root2 := root1];
    }
  }

  /** The root of y after the tree of child has been hung below parent's root. */
  ghost function Joined(m: Map, rank: nat -> nat, parent: nat, child: nat, y: nat): nat
    requires Ranked(m, rank)
  {
    if Root(m, rank, y) == Root(m, rank, child) then Root(m, rank, parent) else Root(m, rank, y)
  }

  // ----- writing the pairs out and reading them back -----

  function Restrict(m: Map, S: set<nat>): Map {
    map x | x in m && x in S :: m[x]
  }

  /** One more pair of the forest, set by SetParent. */
  lemma {:induction false} RestrictMore(m: Map, rank: nat -> nat, S: set<nat>, c: nat, y: nat)
    requires Ranked(m, rank) && c in m
    ensures Ranked(Restrict(m, S), rank) && Ranked(Restrict(m, S + {c}), rank)
    ensures Root(Restrict(m, S + {c}), rank, y) == Joined(Restrict(m, S), rank, m[c], c, y)
    decreases rank(y)
  {
    var a, b := Restrict(m, S), Restrict(m, S + {c});
    RootEnds(a, rank, m[c]);
    if c in S { assert a == b; }
    if y == c && m[c] != c && c !in S {
      RestrictMore(m, rank, S, c, m[c]);
      assert Root(a, rank, c) == c;
    } else if y in b && m[y] != y {
      RestrictMore(m, rank, S, c, m[y]);
    }
  }

  /** Two maps that send every node to the same root. */
  ghost predicate Agree(m: Map, rank: nat -> nat, m': Map, rank': nat -> nat) {
    Ranked(m, rank) && Ranked(m', rank') && forall y: nat :: Root(m', rank', y) == Root(m, rank, y)
  }

  lemma AgreeMore(m: Map, rank: nat -> nat, S: set<nat>, c: nat, d: Map, k: nat -> nat, d': Map, k': nat -> nat)
    requires Ranked(m, rank) && c in m && Agree(Restrict(m, S), rank, d, k)
    requires Ranked(d', k') && forall y: nat :: Root(d', k', y) == Joined(d, k, m[c], c, y)
    ensures Agree(Restrict(m, S + {c}), rank, d', k')
  {
    RestrictMore(m, rank, S, c, c);
    forall y: nat ensures Root(d', k', y) == Root(Restrict(m, S + {c}), rank, y) {
      RestrictMore(m, rank, S, c, y);
    }
  }

  /** What EncodeTo writes and DecodeFrom sets again, in whatever order the hash map gave
      the pairs; Builder::SaveTo carries a version's map over the same way. Every node
      has the root it had. */
  method Rebuild(source: Map, order: seq<nat>, ghost rank: nat -> nat) returns (d: Dependency)
    requires Ranked(source, rank) && forall x :: x in order <==> x in source
    ensures fresh(d) && Agree(source, rank, d.depMap, d.rank)
  {
    d := new Dependency();
    assert Restrict(source, Seen(order, 0)) == map[];
    var i := 0;
    while i < |order|
      invariant i <= |order| && fresh(d)
      invariant Agree(Restrict(source, Seen(order, i)), rank, d.depMap, d.rank)
    {
      SeenMore(order, i);
      assert order[i] in order;
      SetAgain(d, source, order[i], rank, Seen(order, i));
      i := i + 1;
    }
    AllSeen(source, order);
  }

  ghost function Seen(order: seq<nat>, i: nat): set<nat>
    requires i <= |order|
  {
    set x | x in order[..i]
  }

  lemma SeenMore(order: seq<nat>, i: nat)
    requires i < |order|
    ensures Seen(order, i + 1) == Seen(order, i) + {order[i]}
  {
    assert order[..i + 1] == order[..i] + [order[i]];
  }

  lemma AllSeen(source: Map, order: seq<nat>)
    requires forall x :: x in order <==> x in source
    ensures Restrict(source, Seen(order, |order|)) == source
  {
    assert order[..|order|] == order;
  }

  method SetAgain(d: Dependency, source: Map, c: nat, ghost rank: nat -> nat, ghost done: set<nat>)
    requires Ranked(source, rank) && c in source && Agree(Restrict(source, done), rank, d.depMap, d.rank)
    modifies d
    ensures Agree(Restrict(source, done + {c}), rank, d.depMap, d.rank)
  {
    ghost var m, k := d.depMap, d.rank;
    d.SetParent(source[c], c);
    AgreeMore(source, rank, done, c, m, k, d.depMap, d.rank);
  }

  // ----- a version's map and the edit's on top -----

  /** d sends every node to the root in `over` of its root in `base`. */
  ghost predicate Stacked(base: Map, rank: nat -> nat, over: Map, overRank: nat -> nat, d: Map, k: nat -> nat) {
    && Ranked(base, rank) && Ranked(over, overRank) && Ranked(d, k)
    && forall y: nat :: Root(d, k, y) == Root(over, overRank, Root(base, rank, y))
  }

  /** The nodes of `over` are roots of `base`: an edit redirects files that are in use, to
      files that are new. */
  ghost predicate OnRoots(base: Map, rank: nat -> nat, over: Map)
    requires Ranked(base, rank)
  {
    forall x :: x in over ==> Root(base, rank, x) == x && Root(base, rank, over[x]) == over[x]
  }

  lemma StackMore(base: Map, rank: nat -> nat, over: Map, overRank: nat -> nat, S: set<nat>, c: nat,
                  d: Map, k: nat -> nat, d': Map, k': nat -> nat)
    requires Ranked(base, rank) && Ranked(over, overRank) && OnRoots(base, rank, over) && c in over
    requires Stacked(base, rank, Restrict(over, S), overRank, d, k)
    requires Ranked(d', k') && forall y: nat :: Root(d', k', y) == Joined(d, k, over[c], c, y)
    ensures Stacked(base, rank, Restrict(over, S + {c}), overRank, d', k')
  {
    RestrictMore(over, overRank, S, c, c);
    forall y: nat ensures Root(d', k', y) == Root(Restrict(over, S + {c}), overRank, Root(base, rank, y)) {
      RestrictMore(over, overRank, S, c, Root(base, rank, y));
    }
  }

  /** Builder::SaveTo: the pairs of the base version's map, then those the edits set, each in
      whatever order its hash map gives them. */
  method SaveTo(base: Map, baseOrder: seq<nat>, over: Map, order: seq<nat>, ghost rank: nat -> nat, ghost overRank: nat -> nat)
    returns (d: Dependency)
    requires Ranked(base, rank) && forall x :: x in baseOrder <==> x in base
    requires Ranked(over, overRank) && OnRoots(base, rank, over) && forall x :: x in order <==> x in over
    ensures fresh(d) && Stacked(base, rank, over, overRank, d.depMap, d.rank)
  {
    d := Rebuild(base, baseOrder, rank);
    StackNone(base, rank, over, overRank, d.depMap, d.rank);
    SetAll(d, base, over, order, rank, overRank);
  }

  method SetAll(d: Dependency, base: Map, over: Map, order: seq<nat>, ghost rank: nat -> nat, ghost overRank: nat -> nat)
    requires Ranked(base, rank) && Ranked(over, overRank) && OnRoots(base, rank, over)
    requires (forall x :: x in order <==> x in over) && Stacked(base, rank, Restrict(over, {}), overRank, d.depMap, d.rank)
    modifies d
    ensures Stacked(base, rank, over, overRank, d.depMap, d.rank)
  {
    ghost var done: set<nat> := {};
    var i := 0;
    while i < |order|
      invariant i <= |order| && done == Seen(order, i)
      invariant Stacked(base, rank, Restrict(over, done), overRank, d.depMap, d.rank)
    {
      SeenMore(order, i);
      assert order[i] in order;
      SetOver(d, base, over, order[i], rank, overRank, done);
      done, i := done + {order[i]}, i + 1;
    }
    AllSeen(over, order);
  }

  lemma StackNone(base: Map, rank: nat -> nat, over: Map, overRank: nat -> nat, d: Map, k: nat -> nat)
    requires Agree(base, rank, d, k) && Ranked(over, overRank)
    ensures Stacked(base, rank, Restrict(over, {}), overRank, d, k)
  {
  }

  method SetOver(d: Dependency, base: Map, over: Map, c: nat, ghost rank: nat -> nat, ghost overRank: nat -> nat, ghost done: set<nat>)
    requires Ranked(base, rank) && Ranked(over, overRank) && OnRoots(base, rank, over) && c in over
    requires Stacked(base, rank, Restrict(over, done), overRank, d.depMap, d.rank)
    modifies d
    ensures Stacked(base, rank, Restrict(over, done + {c}), overRank, d.depMap, d.rank)
  {
    ghost var m, k := d.depMap, d.rank;
    d.SetParent(over[c], c);
    StackMore(base, rank, over, overRank, done, c, m, k, d.depMap, d.rank);
  }
}
