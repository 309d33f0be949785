/** The memtable's skip list (db/skiplist.h): one inserting thread, any number of readers
    that take no lock. Nodes are numbers in the arena, 0 is the head and, as a link, the
    null pointer. */
module SkipList {

  const MAX_HEIGHT: nat := 12

  /** The memory readers see: the key and the links of every node, and max_height_. */
  datatype Links = Links(keys: seq<int>, next: seq<seq<nat>>, maxHeight: nat)

  function Link(s: Links, n: nat, level: nat): nat {
    if n < |s.next| && level < |s.next[n]| then s.next[n][level] else 0
  }

  /** The q-th node of a level, where the head is node 0. */
  function At(c: seq<nat>, q: nat): nat
    requires q <= |c|
  {
    if q == 0 then 0 else c[q - 1]
  }

  predicate Shape(s: Links) {
    |s.next| == |s.keys| > 0 && |s.next[0]| == MAX_HEIGHT && 1 <= s.maxHeight <= MAX_HEIGHT
  }

  predicate OnLevel(s: Links, n: nat, level: nat) {
    0 < n < |s.keys| && n < |s.next| && level < |s.next[n]|
  }

  ghost predicate Nodes(s: Links, level: nat, c: seq<nat>) {
    forall i :: 0 <= i < |c| ==> OnLevel(s, c[i], level)
  }

  ghost predicate Linked(s: Links, level: nat, c: seq<nat>) {
    forall q: nat {:trigger At(c, q)} :: q <= |c| ==> Link(s, At(c, q), level) == if q < |c| then c[q] else 0
  }

  ghost predicate Sorted(s: Links, c: seq<nat>)
    requires forall i :: 0 <= i < |c| ==> c[i] < |s.keys|
  {
    forall i, j :: 0 <= i < j < |c| ==> s.keys[c[i]] < s.keys[c[j]]
  }

  /** Following the links of a level gives the nodes c, in key order. */
  ghost predicate ChainOk(s: Links, level: nat, c: seq<nat>) {
    Nodes(s, level, c) && Linked(s, level, c) && Sorted(s, c)
  }

  ghost predicate Nested(upper: seq<nat>, lower: seq<nat>) {
    forall n :: n in upper ==> n in lower
  }

  /** Every level is sorted and lies within the level below; nothing is above max_height_. */
  ghost predicate Good(s: Links, cs: seq<seq<nat>>) {
    && Shape(s) && |cs| == MAX_HEIGHT
    && (forall l :: 0 <= l < MAX_HEIGHT ==> ChainOk(s, l, cs[l]))
    && (forall l :: 0 < l < MAX_HEIGHT ==> Nested(cs[l], cs[l - 1]))
    && (forall l :: s.maxHeight <= l < MAX_HEIGHT ==> cs[l] == [])
  }

  ghost function KeysOf(s: Links, cs: seq<seq<nat>>): set<int>
    requires Good(s, cs)
  {
    set i | 0 <= i < |cs[0]| :: s.keys[cs[0][i]]
  }

  // ----- searching -----

  /** n is the first node of c at or after target, or null when there is none. */
  ghost predicate FirstIn(s: Links, c: seq<nat>, target: int, n: nat)
    requires ChainOk(s, 0, c)
  {
    exists q: nat :: Splits(s, c, target, q) && n == if q < |c| then c[q] else 0
  }

  /** The first q nodes of c come before target, the others do not. */
  ghost predicate Splits(s: Links, c: seq<nat>, target: int, q: nat)
    requires forall i :: 0 <= i < |c| ==> c[i] < |s.keys|
  {
    q <= |c| && (forall i :: 0 <= i < q ==> s.keys[c[i]] < target) && (forall i :: q <= i < |c| ==> target <= s.keys[c[i]])
  }

  /** A search may be at x on this level: x is linked there and before the target. */
  ghost predicate Standing(s: Links, cs: seq<seq<nat>>, target: int, x: nat, level: nat)
    requires Good(s, cs)
  {
    level < MAX_HEIGHT && (x == 0 || (x in cs[level] && s.keys[x] < target))
  }

  datatype Reader = Searching(x: nat, level: nat) | Done(node: nat)

  predicate KeyIsAfterNode(s: Links, target: int, n: nat) {
    n != 0 && n < |s.keys| && s.keys[n] < target
  }

  /** One turn of the search loop: one link read from memory. */
  function ReadStep(s: Links, target: int, r: Reader): Reader {
    match r
    case Done(_) => r
    case Searching(x, level) =>
      var next := Link(s, x, level);
      if KeyIsAfterNode(s, target, next) then Searching(next, level)
      else if level == 0 then Done(next)
      else Searching(x, level - 1)
  }

  lemma Position(c: seq<nat>, x: nat) returns (q: nat)
    requires x == 0 || x in c
    ensures q <= |c| && At(c, q) == x
  {
    if x == 0 {
      q := 0;
    } else {
      var i :| 0 <= i < |c| && c[i] == x;
      q := i + 1;
    }
  }

  lemma NextOnLevel(s: Links, level: nat, c: seq<nat>, q: nat)
    requires ChainOk(s, level, c) && q <= |c|
    ensures Link(s, At(c, q), level) == if q < |c| then c[q] else 0
    ensures q > 0 ==> At(c, q) in c
    ensures q < |c| ==> At(c, q + 1) == c[q] && 0 < c[q] < |s.keys|
  {
  }

  lemma SplitsHere(s: Links, c: seq<nat>, target: int, q: nat)
    requires (forall i :: 0 <= i < |c| ==> c[i] < |s.keys|) && Sorted(s, c) && q <= |c|
    requires q > 0 ==> s.keys[c[q - 1]] < target
    requires q < |c| ==> target <= s.keys[c[q]]
    ensures Splits(s, c, target, q)
  {
  }

  /** What a step reads is right for the memory it reads. */
  lemma ReadStepOk(s: Links, cs: seq<seq<nat>>, target: int, x: nat, level: nat)
    requires Good(s, cs) && Standing(s, cs, target, x, level)
    ensures match ReadStep(s, target, Searching(x, level))
            case Searching(x', level') => Standing(s, cs, target, x', level')
            case Done(n) => FirstIn(s, cs[0], target, n)
  {
    var c := cs[level];
    assert ChainOk(s, level, c);
    var q := Position(c, x);
    assert Link(s, At(c, q), level) == if q < |c| then c[q] else 0;
    if KeyIsAfterNode(s, target, Link(s, x, level)) {
      assert c[q] in c;
    } else if level > 0 {
      assert Nested(cs[level], cs[level - 1]);
    } else {
      SplitsHere(s, c, target, q);
    }
  }

  // ----- the stores of Insert -----

  function SetLink(s: Links, n: nat, level: nat, v: nat): Links
    requires n < |s.next| && level < |s.next[n]|
  {
    var row: seq<nat> := s.next[n][level := v];
    s.(next := s.next[n := row])
  }

  /** Nothing a level depends on has changed. */
  ghost predicate SameLevel(s: Links, s': Links, level: nat, c: seq<nat>) {
    && |s.keys| <= |s'.keys| && |s'.next| == |s'.keys|
    && Link(s', 0, level) == Link(s, 0, level)
    && forall n :: n in c && OnLevel(s, n, level) ==>
                     OnLevel(s', n, level) && Link(s', n, level) == Link(s, n, level) && s'.keys[n] == s.keys[n]
  }

  lemma SameChain(s: Links, s': Links, level: nat, c: seq<nat>)
    requires ChainOk(s, level, c) && SameLevel(s, s', level, c)
    ensures ChainOk(s', level, c)
  {
    forall q: nat {:trigger At(c, q)} | q <= |c| ensures Link(s', At(c, q), level) == if q < |c| then c[q] else 0 {
      assert q > 0 ==> c[q - 1] in c;
    }
  }

  /** A new node, or a higher max_height_, is not seen by anyone yet. */
  lemma Unseen(s: Links, s': Links, cs: seq<seq<nat>>)
    requires Good(s, cs) && Shape(s') && s.keys <= s'.keys && s.next <= s'.next && s.maxHeight <= s'.maxHeight
    ensures Good(s', cs)
  {
    forall l | 0 <= l < MAX_HEIGHT ensures ChainOk(s', l, cs[l]) {
      assert ChainOk(s, l, cs[l]);
      SameChain(s, s', l, cs[l]);
    }
  }

  /** Storing into a link of a node that is not on that level yet. */
  lemma Prepare(s: Links, cs: seq<seq<nat>>, x: nat, level: nat, v: nat)
    requires Good(s, cs) && level < MAX_HEIGHT && OnLevel(s, x, level) && x !in cs[level]
    ensures Good(SetLink(s, x, level, v), cs)
  {
    var s' := SetLink(s, x, level, v);
    forall l | 0 <= l < MAX_HEIGHT ensures ChainOk(s', l, cs[l]) {
      assert ChainOk(s, l, cs[l]);
      SameChain(s, s', l, cs[l]);
    }
  }

  function InsertAt(c: seq<nat>, p: nat, x: nat): seq<nat>
    requires p <= |c|
  {
    c[..p] + [x] + c[p..]
  }

  lemma InsertIndex(c: seq<nat>, p: nat, x: nat)
    requires p <= |c|
    ensures var d := InsertAt(c, p, x);
            && |d| == |c| + 1 && d[p] == x
            && (forall i :: 0 <= i < p ==> d[i] == c[i]) && (forall i :: p < i <= |c| ==> d[i] == c[i - 1])
            && forall n :: n in d <==> n == x || n in c
  {
    var d := InsertAt(c, p, x);
    assert d[p] == x;
    forall n | n in c ensures n in d {
      var i :| 0 <= i < |c| && c[i] == n;
      if i < p { assert d[i] == n; } else { assert d[i + 1] == n; }
    }
  }

  lemma InsertSorted(s: Links, c: seq<nat>, p: nat, x: nat)
    requires (forall i :: 0 <= i < |c| ==> c[i] < |s.keys|) && x < |s.keys| && Sorted(s, c)
    requires p <= |c| && (forall i :: 0 <= i < p ==> s.keys[c[i]] < s.keys[x])
    requires forall i :: p <= i < |c| ==> s.keys[x] < s.keys[c[i]]
    ensures (forall i :: 0 <= i <= |c| ==> InsertAt(c, p, x)[i] < |s.keys|) && Sorted(s, InsertAt(c, p, x))
  {
    InsertIndex(c, p, x);
  }

  lemma InsertLinked(s: Links, s': Links, level: nat, c: seq<nat>, p: nat, x: nat, q: nat)
    requires Nodes(s, level, c) && Linked(s, level, c) && Sorted(s, c) && p <= |c| && q <= |c| + 1 && x != 0 && x !in c
    requires Link(s', x, level) == (if p < |c| then c[p] else 0)
    requires Link(s', At(c, p), level) == x
    requires forall n :: n != x && n != At(c, p) ==> Link(s', n, level) == Link(s, n, level)
    ensures |InsertAt(c, p, x)| == |c| + 1
    ensures var d := InsertAt(c, p, x); Link(s', At(d, q), level) == if q < |d| then d[q] else 0
  {
    var d := InsertAt(c, p, x);
    InsertIndex(c, p, x);
    if q < p {
      assert At(d, q) == At(c, q);
      Different(s, c, q, p);
    } else if q == p {
      assert At(d, q) == At(c, p);
    } else if q > p + 1 {
      assert At(d, q) == At(c, q - 1);
      Different(s, c, p, q - 1);
    }
  }

  /** Storing the new node into its predecessor's link puts it on the level. */
  lemma ChainInsert(s: Links, level: nat, c: seq<nat>, p: nat, x: nat)
    requires ChainOk(s, level, c) && OnLevel(s, x, level) && x !in c && |s.next| == |s.keys|
    requires p <= |c| && (forall i :: 0 <= i < p ==> s.keys[c[i]] < s.keys[x])
    requires forall i :: p <= i < |c| ==> s.keys[x] < s.keys[c[i]]
    requires level < |s.next[0]| && Link(s, x, level) == (if p < |c| then c[p] else 0)
    ensures At(c, p) < |s.next| && level < |s.next[At(c, p)]|
    ensures ChainOk(SetLink(s, At(c, p), level, x), level, InsertAt(c, p, x))
  {
    var d := InsertAt(c, p, x);
    assert p > 0 ==> OnLevel(s, c[p - 1], level);
    assert At(c, p) != x by { assert p > 0 ==> c[p - 1] in c; }
    var s' := SetLink(s, At(c, p), level, x);
    InsertIndex(c, p, x);
    InsertSorted(s, c, p, x);
    forall q: nat {:trigger At(d, q)} | q <= |d| ensures Link(s', At(d, q), level) == if q < |d| then d[q] else 0 {
      InsertLinked(s, s', level, c, p, x, q);
    }
  }

  lemma Different(s: Links, c: seq<nat>, p: nat, q: nat)
    requires forall i :: 0 <= i < |c| ==> 0 < c[i] < |s.keys|
    requires Sorted(s, c) && p < q <= |c|
    ensures At(c, p) != At(c, q)
  {
  }

  /** prev is the last node of c before target, or the head. */
  ghost predicate IsPrev(s: Links, c: seq<nat>, target: int, prev: nat)
    requires forall i :: 0 <= i < |c| ==> c[i] < |s.keys|
  {
    exists q: nat :: Splits(s, c, target, q) && prev == At(c, q)
  }

  /** The pair of stores at one level keeps the list good and puts x on the level. */
  lemma Publish(s: Links, cs: seq<seq<nat>>, x: nat, level: nat, p: nat)
    requires Good(s, cs) && level < s.maxHeight && OnLevel(s, x, level) && x !in cs[level]
    requires level > 0 ==> x in cs[level - 1]
    requires ChainOk(s, level, cs[level]) && Splits(s, cs[level], s.keys[x], p)
    requires forall i :: 0 <= i < |cs[level]| ==> s.keys[cs[level][i]] != s.keys[x]
    requires Link(s, x, level) == (if p < |cs[level]| then cs[level][p] else 0)
    ensures At(cs[level], p) < |s.next| && level < |s.next[At(cs[level], p)]|
    ensures Good(SetLink(s, At(cs[level], p), level, x), cs[level := InsertAt(cs[level], p, x)])
  {
    var c := cs[level];
    ChainInsert(s, level, c, p, x);
    InsertIndex(c, p, x);
    var s', cs' := SetLink(s, At(c, p), level, x), cs[level := InsertAt(c, p, x)];
    forall l | 0 <= l < MAX_HEIGHT ensures ChainOk(s', l, cs'[l]) {
      assert ChainOk(s, l, cs[l]);
      if l != level { SameChain(s, s', l, cs[l]); }
    }
    forall l | 0 < l < MAX_HEIGHT ensures Nested(cs'[l], cs'[l - 1]) {
      assert Nested(cs[l], cs[l - 1]);
    }
  }

  // ----- what a concurrent reader may see -----

  datatype Snap = Snap(s: Links, cs: seq<seq<nat>>)

  ghost predicate GoodSnap(a: Snap) {
    Good(a.s, a.cs)
  }

  /** Nothing is ever taken off a level. */
  ghost predicate Grows(a: Snap, b: Snap) {
    && a.s.keys <= b.s.keys && |a.cs| == |b.cs| == MAX_HEIGHT
    && forall l :: 0 <= l < MAX_HEIGHT ==> Nested(a.cs[l], b.cs[l])
  }

  /** Memory as it goes through a number of stores. */
  ghost predicate History(trace: seq<Snap>) {
    && (forall i :: 0 <= i < |trace| ==> GoodSnap(trace[i]))
    && forall i, j :: 0 <= i <= j < |trace| ==> Grows(trace[i], trace[j])
  }

  lemma HistoryGrows(trace: seq<Snap>, b: Snap)
    requires History(trace) && trace != [] && GoodSnap(b) && Grows(trace[|trace| - 1], b)
    ensures History(trace + [b])
  {
    var a := trace[|trace| - 1];
    forall i | 0 <= i < |trace| ensures Grows(trace[i], b) {
      assert Grows(trace[i], a);
      forall l | 0 <= l < MAX_HEIGHT ensures Nested(trace[i].cs[l], b.cs[l]) {
        assert Nested(trace[i].cs[l], a.cs[l]);
      }
    }
    assert Grows(b, b);
  }

  /** A search whose turns read memory at the times ts. */
  function Observe(trace: seq<Snap>, target: int, r: Reader, ts: seq<nat>): Reader
    requires forall i :: 0 <= i < |ts| ==> ts[i] < |trace|
    decreases |ts|
  {
    if ts == [] || r.Done? then r
    else Observe(trace, target, ReadStep(trace[ts[0]].s, target, r), ts[1..])
  }

  ghost predicate InOrder(ts: seq<nat>, n: nat) {
    (forall i :: 0 <= i < |ts| ==> ts[i] < n) && forall i, j :: 0 <= i < j < |ts| ==> ts[i] <= ts[j]
  }

  lemma StandingStays(a: Snap, b: Snap, target: int, x: nat, level: nat)
    requires GoodSnap(a) && GoodSnap(b) && Grows(a, b) && Standing(a.s, a.cs, target, x, level)
    ensures Standing(b.s, b.cs, target, x, level)
  {
    if x != 0 {
      assert Nested(a.cs[level], b.cs[level]);
      assert ChainOk(a.s, level, a.cs[level]);
    }
  }

  /** A lock-free search that ends has the right answer for the list as it was at one of
      the moments it looked: the old set, the new one, or one in between. */
  lemma {:induction false} ReadersAnswer(trace: seq<Snap>, target: int, x: nat, level: nat, since: nat, ts: seq<nat>)
    returns (t: nat)
    requires History(trace) && InOrder(ts, |trace|) && since < |trace| && (forall i :: 0 <= i < |ts| ==> since <= ts[i])
    requires GoodSnap(trace[since]) && Standing(trace[since].s, trace[since].cs, target, x, level)
    ensures var r := Observe(trace, target, Searching(x, level), ts);
            r.Done? ==> t in ts && GoodSnap(trace[t]) && FirstIn(trace[t].s, trace[t].cs[0], target, r.node)
    decreases |ts|
  {
    t := 0;
    if ts != [] {
      var now := trace[ts[0]];
      assert GoodSnap(now) && Grows(trace[since], now);
      StandingStays(trace[since], now, target, x, level);
      ReadStepOk(now.s, now.cs, target, x, level);
      match ReadStep(now.s, target, Searching(x, level))
      case Searching(x', level') =>
        t := ReadersAnswer(trace, target, x', level', ts[0], ts[1..]);
      case Done(n) =>
        t := ts[0];
    }
  }

  /** The same for a whole search from the head. It may start at any level: a max_height_
      that is stale, or raised before the level is used, does no harm. */
  lemma LockFreeSearch(trace: seq<Snap>, target: int, level: nat, ts: seq<nat>) returns (t: nat)
    requires History(trace) && InOrder(ts, |trace|) && ts != [] && level < MAX_HEIGHT
    ensures var r := Observe(trace, target, Searching(0, level), ts);
            r.Done? ==> t in ts && GoodSnap(trace[t]) && FirstIn(trace[t].s, trace[t].cs[0], target, r.node)
  {
    assert GoodSnap(trace[ts[0]]);
    t := ReadersAnswer(trace, target, 0, level, ts[0], ts);
  }

  // ----- a search as it goes -----

  /** A search stands at x, the q-th node of its level, all before target. */
  ghost predicate Walked(s: Links, cs: seq<seq<nat>>, target: int, level: nat, x: nat, q: nat) {
    && |cs| == MAX_HEIGHT && level < s.maxHeight <= MAX_HEIGHT
    && q <= |cs[level]| && At(cs[level], q) == x && (q > 0 ==> x < |s.keys| && s.keys[x] < target)
  }

  /** From this level upwards the nodes before target are known. */
  ghost predicate PrevsFrom(s: Links, cs: seq<seq<nat>>, target: int, prev: seq<nat>, level: nat) {
    && |cs| == MAX_HEIGHT && |prev| == s.maxHeight <= MAX_HEIGHT
    && forall l :: level <= l < s.maxHeight ==> ChainOk(s, l, cs[l]) && IsPrev(s, cs[l], target, prev[l])
  }

  /** The next link leads on, or the level is done. */
  lemma WalkOn(s: Links, cs: seq<seq<nat>>, target: int, level: nat, x: nat, q: nat)
    requires Good(s, cs) && Walked(s, cs, target, level, x, q)
    ensures ChainOk(s, level, cs[level])
    ensures var next := Link(s, x, level);
            if KeyIsAfterNode(s, target, next) then q < |cs[level]| && Walked(s, cs, target, level, next, q + 1)
            else Splits(s, cs[level], target, q) && IsPrev(s, cs[level], target, x) && next == if q < |cs[level]| then cs[level][q] else 0
  {
    NextOnLevel(s, level, cs[level], q);
    if !KeyIsAfterNode(s, target, Link(s, x, level)) { SplitsHere(s, cs[level], target, q); }
  }

  lemma WalkDown(s: Links, cs: seq<seq<nat>>, target: int, level: nat, x: nat, q: nat) returns (q': nat)
    requires Good(s, cs) && Walked(s, cs, target, level, x, q) && level > 0
    ensures Walked(s, cs, target, level - 1, x, q')
  {
    NextOnLevel(s, level, cs[level], q);
    assert Nested(cs[level], cs[level - 1]);
    q' := Position(cs[level - 1], x);
  }

  lemma OnePrevMore(s: Links, cs: seq<seq<nat>>, target: int, prev: seq<nat>, level: nat, x: nat)
    requires PrevsFrom(s, cs, target, prev, level + 1) && level < s.maxHeight
    requires ChainOk(s, level, cs[level]) && IsPrev(s, cs[level], target, x)
    ensures PrevsFrom(s, cs, target, prev[level := x], level)
  {
  }

  // ----- the list -----

  class List {
    var s: Links
    ghost var cs: seq<seq<nat>>

    ghost predicate Valid()
      reads this
    {
      Good(s, cs)
    }

    constructor ()
      ensures Valid() && KeysOf(s, cs) == {}
    {
      s := Links([0], [seq(MAX_HEIGHT, _ => 0)], 1);
      cs := seq(MAX_HEIGHT, _ => []);
    }

    /** The first node at or after target, and on every level the node before it. */
    method FindGreaterOrEqual(target: int) returns (node: nat, prev: seq<nat>)
      requires Valid()
      ensures FirstIn(s, cs[0], target, node)
      ensures |prev| == s.maxHeight
      ensures forall l :: 0 <= l < s.maxHeight ==> ChainOk(s, l, cs[l]) && IsPrev(s, cs[l], target, prev[l])
    {
      var x: nat, level: nat := 0, s.maxHeight - 1;
      prev := seq(s.maxHeight, _ => 0);
      ghost var q: nat := 0;
      while true
        invariant Walked(s, cs, target, level, x, q) && PrevsFrom(s, cs, target, prev, level + 1)
        decreases level, |cs[level]| - q
      {
        WalkOn(s, cs, target, level, x, q);
        var next := Link(s, x, level);
        if KeyIsAfterNode(s, target, next) {
          x, q := next, q + 1;
        } else {
          OnePrevMore(s, cs, target, prev, level, x);
          prev := prev[level := x];
          if level == 0 { return next, prev; }
          q := WalkDown(s, cs, target, level, x, q);
          level := level - 1;
        }
      }
    }

    /** The last node before target, or the head. */
    method FindLessThan(target: int) returns (x: nat)
      requires Valid()
      ensures ChainOk(s, 0, cs[0]) && IsPrev(s, cs[0], target, x)
    {
      x := 0;
      var level: nat := s.maxHeight - 1;
      ghost var q: nat := 0;
      while true
        invariant Walked(s, cs, target, level, x, q)
        decreases level, |cs[level]| - q
      {
        WalkOn(s, cs, target, level, x, q);
        var next := Link(s, x, level);
        if next == 0 || s.keys[next] >= target {
          if level == 0 { return; }
          q := WalkDown(s, cs, target, level, x, q);
          level := level - 1;
        } else {
          x, q := next, q + 1;
        }
      }
    }

    /** The last node, or the head. */
    method FindLast() returns (x: nat)
      requires Valid()
      ensures x == At(cs[0], |cs[0]|)
    {
      x := 0;
      var level: nat := s.maxHeight - 1;
      ghost var q: nat := 0;
      while true
        invariant 0 <= level < s.maxHeight && q <= |cs[level]| && At(cs[level], q) == x
        decreases level, |cs[level]| - q
      {
        NextOnLevel(s, level, cs[level], q);
        var next := Link(s, x, level);
        if next == 0 {
          if level == 0 { return x; }
          assert Nested(cs[level], cs[level - 1]);
          level := level - 1;
          q := Position(cs[level], x);
        } else {
          x, q := next, q + 1;
        }
      }
    }

    method Contains(key: int) returns (found: bool)
      requires Valid()
      ensures found <==> key in KeysOf(s, cs)
    {
      var x, _ := FindGreaterOrEqual(key);
      assert ChainOk(s, 0, cs[0]);
      found := x != 0 && s.keys[x] == key;
    }

    /** Links node x in at one level, after prev: two stores. */
    method LinkLevel(x: nat, level: nat, prev: nat, ghost q: nat, ghost before: seq<Snap>) returns (ghost trace: seq<Snap>)
      requires Valid() && Ready(s, cs, x, level, prev, q)
      requires History(before) && before != [] && before[|before| - 1] == Snap(s, cs)
      modifies this
      ensures Valid() && s.keys == old(s.keys) && s.maxHeight == old(s.maxHeight)
      ensures OnLevel(s, x, |old(s.next)[x]| - 1) && |s.next[x]| == |old(s.next)[x]|
      ensures cs == old(cs)[level := InsertAt(old(cs)[level], q, x)]
      ensures History(trace) && |trace| == |before| + 2 && trace[..|before|] == before && trace[|before| + 1] == Snap(s, cs)
      ensures GoodSnap(trace[|before|]) && KeysOf(trace[|before|].s, trace[|before|].cs) == old(KeysOf(s, cs))
    {
      var next := Link(s, prev, level);
      NextOnLevel(s, level, cs[level], q);
      Prepare(s, cs, x, level, next);
      ghost var first := Snap(SetLink(s, x, level, next), cs);
      HistoryGrows(before, first);
      s := SetLink(s, x, level, next);

      ghost var second := Snap(SetLink(s, prev, level, x), cs[level := InsertAt(cs[level], q, x)]);
      Publish(s, cs, x, level, q);
      PublishGrows(first, second, x, level, q);
      HistoryGrows(before + [first], second);
      s := SetLink(s, prev, level, x);
      cs := cs[level := InsertAt(cs[level], q, x)];
      trace := before + [first] + [second];
    }

    /** Raises max_height_ for a node higher than the list. On the new levels the node's
        predecessor is the head. */
    method Raise(key: int, height: nat, before: seq<nat>) returns (prev: seq<nat>, ghost qs: seq<nat>, ghost trace: seq<Snap>)
      requires Valid() && 1 <= height <= MAX_HEIGHT && |before| == s.maxHeight
      requires forall l :: 0 <= l < s.maxHeight ==> ChainOk(s, l, cs[l]) && IsPrev(s, cs[l], key, before[l])
      modifies this
      ensures Valid() && cs == old(cs) && KeysOf(s, cs) == old(KeysOf(s, cs)) && s.keys == old(s.keys)
      ensures s.maxHeight == if height > old(s.maxHeight) then height else old(s.maxHeight)
      ensures |prev| == |qs| == s.maxHeight
      ensures forall l :: 0 <= l < height ==> ChainOk(s, l, cs[l]) && Splits(s, cs[l], key, qs[l]) && prev[l] == At(cs[l], qs[l])
      ensures Stores(trace, KeysOf(s, cs), key) && trace[0] == Snap(old(s), old(cs)) && trace[|trace| - 1] == Snap(s, cs)
    {
      prev := before;
      qs := Positions(s, cs, key, prev);
      trace := [Snap(s, cs)];
      if height > s.maxHeight {
        prev := prev + seq(height - s.maxHeight, _ => 0);
        ghost var s0, low := s, qs;
        qs := qs + seq(height - s.maxHeight, _ => 0);
        s := s.(maxHeight := height);
        Unseen(s0, s, cs);
        HistoryGrows(trace, Snap(s, cs));
        trace := trace + [Snap(s, cs)];
        Raised(s0, s, cs, key, before, low, prev, qs);
      }
    }

    /** Allocates the node. */
    method NewNode(key: int, height: nat, ghost before: seq<Snap>) returns (x: nat, ghost trace: seq<Snap>)
      requires Valid() && height <= MAX_HEIGHT
      requires Stores(before, KeysOf(s, cs), key) && before[|before| - 1] == Snap(s, cs)
      modifies this
      ensures Valid() && cs == old(cs) && KeysOf(s, cs) == old(KeysOf(s, cs)) && s.maxHeight == old(s.maxHeight)
      ensures s.keys == old(s.keys) + [key] && x == |old(s.keys)| && |s.next[x]| == height
      ensures Stores(trace, KeysOf(s, cs), key) && trace[0] == before[0] && trace[|trace| - 1] == Snap(s, cs)
    {
      ghost var s0 := s;
      x := |s.keys|;
      s := Links(s.keys + [key], s.next + [seq(height, _ => 0)], s.maxHeight);
      Unseen(s0, s, cs);
      assert forall i :: 0 <= i < |cs[0]| ==> OnLevel(s0, cs[0][i], 0) by { assert ChainOk(s0, 0, cs[0]); }
      HistoryGrows(before, Snap(s, cs));
      trace := before + [Snap(s, cs)];
    }

    /** One turn of the linking loop. */
    method LinkNext(x: nat, level: nat, prev: nat, ghost q: nat, ghost keys: set<int>, ghost before: seq<Snap>)
      returns (ghost trace: seq<Snap>)
      requires Valid() && Ready(s, cs, x, level, prev, q)
      requires KeysOf(s, cs) == if level == 0 then keys else keys + {s.keys[x]}
      requires Stores(before, keys, s.keys[x]) && before[|before| - 1] == Snap(s, cs)
      modifies this
      ensures Valid() && s.keys == old(s.keys) && s.maxHeight == old(s.maxHeight)
      ensures |s.next| == |old(s.next)| && |s.next[x]| == |old(s.next)[x]|
      ensures Joins(old(cs)[level], cs[level], x) && forall l :: 0 <= l < MAX_HEIGHT && l != level ==> cs[l] == old(cs)[l]
      ensures KeysOf(s, cs) == keys + {s.keys[x]}
      ensures Stores(trace, keys, s.keys[x]) && trace[0] == before[0] && trace[|trace| - 1] == Snap(s, cs)
    {
      ghost var a := Snap(s, cs);
      InsertIndex(cs[level], q, x);
      InsertJoins(cs[level], q, x);
      trace := LinkLevel(x, level, prev, q, before);
      KeysGrow(a, Snap(s, cs), x, level, q);
      StoresGrow(before, trace, keys, s.keys[x]);
      assert trace[0] == trace[..|before|][0];
    }

    /** What Insert does before it links: search, raise, allocate. */
    method Place(key: int, height: nat) returns (x: nat, prev: seq<nat>, ghost qs: seq<nat>, ghost trace: seq<Snap>)
      requires Valid() && key !in KeysOf(s, cs) && 1 <= height <= MAX_HEIGHT
      modifies this
      ensures Valid() && cs == old(cs) && KeysOf(s, cs) == old(KeysOf(s, cs))
      ensures x == |old(s.keys)| && s.keys == old(s.keys) + [key] && |s.next[x]| == height && OnLevel(s, x, 0)
      ensures s.maxHeight == if height > old(s.maxHeight) then height else old(s.maxHeight)
      ensures |prev| >= height && |qs| >= height && forall l :: 0 <= l < height ==> Planned(s, cs[l], x, prev[l], qs[l])
      ensures Stores(trace, KeysOf(s, cs), key) && trace[0] == Snap(old(s), old(cs)) && trace[|trace| - 1] == Snap(s, cs)
    {
      ghost var s0 := s;
      var _, before := FindGreaterOrEqual(key);
      prev, qs, trace := Raise(key, height, before);
      x, trace := NewNode(key, height, trace);
      PlanAll(s0, s, cs, key, height, prev, qs);
    }

    /** Adds a key that is not there. Every state of memory on the way is in the trace:
        each is a good list and holds the old set of keys or the new one. */
    method Insert(key: int, height: nat) returns (ghost trace: seq<Snap>)
      requires Valid() && key !in KeysOf(s, cs) && 1 <= height <= MAX_HEIGHT
      modifies this
      ensures Valid() && KeysOf(s, cs) == old(KeysOf(s, cs)) + {key}
      ensures s.keys == old(s.keys) + [key] && s.maxHeight == if height > old(s.maxHeight) then height else old(s.maxHeight)
      ensures JoinedBelow(old(cs), cs, |old(s.keys)|, height)
      ensures Stores(trace, old(KeysOf(s, cs)), key)
      ensures trace[0] == Snap(old(s), old(cs)) && trace[|trace| - 1] == Snap(s, cs)
    {
      ghost var first, keys := Snap(s, cs), KeysOf(s, cs);
      var x, prev;
      ghost var qs;
      x, prev, qs, trace := Place(key, height);
      ghost var s1, c0 := s, cs;
      var i := 0;
      while i < height
        invariant i <= height <= s.maxHeight == s1.maxHeight && Valid() && s.keys == s1.keys
        invariant 0 < x < |s.next| && |s.next[x]| == height
        invariant JoinedBelow(c0, cs, x, i)
        invariant KeysOf(s, cs) == if i == 0 then keys else keys + {key}
        invariant Stores(trace, keys, key) && trace[0] == first && trace[|trace| - 1] == Snap(s, cs)
      {
        PlannedReady(s1, s, cs, x, i, prev[i], qs[i]);
        ghost var before := cs;
        trace := LinkNext(x, i, prev[i], qs[i], keys, trace);
        JoinedOneMore(c0, before, cs, x, i);
        i := i + 1;
      }
    }
  }

  lemma Raised(s0: Links, s: Links, cs: seq<seq<nat>>, key: int, before: seq<nat>, low: seq<nat>, prev: seq<nat>, qs: seq<nat>)
    requires Good(s0, cs) && Good(s, cs) && s.keys == s0.keys && |before| == |low| == s0.maxHeight
    requires forall l :: 0 <= l < s0.maxHeight ==> ChainOk(s0, l, cs[l]) && Splits(s0, cs[l], key, low[l]) && before[l] == At(cs[l], low[l])
    requires |prev| == |qs| == s.maxHeight && before <= prev && low <= qs
    requires forall l :: s0.maxHeight <= l < s.maxHeight ==> prev[l] == qs[l] == 0
    ensures forall l :: 0 <= l < s.maxHeight ==> ChainOk(s, l, cs[l]) && Splits(s, cs[l], key, qs[l]) && prev[l] == At(cs[l], qs[l])
  {
    forall l | 0 <= l < s.maxHeight ensures ChainOk(s, l, cs[l]) && Splits(s, cs[l], key, qs[l]) && prev[l] == At(cs[l], qs[l]) {
      assert ChainOk(s, l, cs[l]);
      if l < s0.maxHeight { assert prev[l] == before[l] && qs[l] == low[l]; }
    }
  }

  lemma PlanAll(s0: Links, s: Links, cs: seq<seq<nat>>, key: int, height: nat, prev: seq<nat>, qs: seq<nat>)
    requires Good(s0, cs) && key !in KeysOf(s0, cs) && s.keys == s0.keys + [key] && height <= MAX_HEIGHT
    requires |prev| == |qs| >= height
    requires forall l :: 0 <= l < height ==> ChainOk(s0, l, cs[l]) && Splits(s0, cs[l], key, qs[l]) && prev[l] == At(cs[l], qs[l])
    ensures forall l :: 0 <= l < height ==> Planned(s, cs[l], |s0.keys|, prev[l], qs[l])
  {
    forall l | 0 <= l < height ensures Planned(s, cs[l], |s0.keys|, prev[l], qs[l]) {
      KeysBelow(s0, cs, l);
    }
  }

  lemma PlannedReady(s1: Links, s: Links, cs: seq<seq<nat>>, x: nat, level: nat, prev: nat, q: nat)
    requires Good(s, cs) && s.keys == s1.keys && level < s.maxHeight && OnLevel(s, x, level)
    requires Planned(s1, cs[level], x, prev, q) && (level > 0 ==> x in cs[level - 1])
    ensures Ready(s, cs, x, level, prev, q)
  {
    assert ChainOk(s, level, cs[level]);
  }

  /** Node x has joined the nodes of a level. */
  ghost predicate Joins(c: seq<nat>, d: seq<nat>, x: nat) {
    x in d && forall n :: n != x ==> (n in c <==> n in d)
  }

  /** On the levels below i, and on no other. */
  ghost predicate JoinedBelow(c0: seq<seq<nat>>, cs: seq<seq<nat>>, x: nat, i: nat) {
    && |c0| == |cs| == MAX_HEIGHT
    && (forall l :: 0 <= l < i && l < MAX_HEIGHT ==> Joins(c0[l], cs[l], x))
    && (forall l :: i <= l < MAX_HEIGHT ==> cs[l] == c0[l])
  }

  lemma JoinedOneMore(c0: seq<seq<nat>>, cs: seq<seq<nat>>, cs': seq<seq<nat>>, x: nat, i: nat)
    requires JoinedBelow(c0, cs, x, i) && i < MAX_HEIGHT == |cs'| && Joins(cs[i], cs'[i], x)
    requires forall l :: 0 <= l < MAX_HEIGHT && l != i ==> cs'[l] == cs[l]
    ensures JoinedBelow(c0, cs', x, i + 1)
  {
  }

  lemma InsertJoins(c: seq<nat>, q: nat, x: nat)
    requires q <= |c|
    ensures Joins(c, InsertAt(c, q, x), x)
  {
    assert c == c[..q] + c[q..];
    assert InsertAt(c, q, x)[q] == x;
  }

  /** prev is the q-th node of c, the place for node x. */
  ghost predicate Planned(s: Links, c: seq<nat>, x: nat, prev: nat, q: nat) {
    && x < |s.keys| && (forall i :: 0 <= i < |c| ==> c[i] < x && s.keys[c[i]] != s.keys[x])
    && Splits(s, c, s.keys[x], q) && prev == At(c, q)
  }

  /** The states Insert goes through. */
  ghost predicate Stores(trace: seq<Snap>, keys: set<int>, key: int) {
    && History(trace) && trace != []
    && forall i :: 0 <= i < |trace| ==> Holds(trace[i], keys, key)
  }

  ghost predicate Holds(a: Snap, keys: set<int>, key: int) {
    GoodSnap(a) && (KeysOf(a.s, a.cs) == keys || KeysOf(a.s, a.cs) == keys + {key})
  }

  lemma StoresGrow(before: seq<Snap>, trace: seq<Snap>, keys: set<int>, key: int)
    requires Stores(before, keys, key) && History(trace) && |trace| == |before| + 2 && trace[..|before|] == before
    requires Holds(trace[|before|], keys, key) && Holds(trace[|before| + 1], keys, key)
    ensures Stores(trace, keys, key)
  {
    forall i | 0 <= i < |trace| ensures Holds(trace[i], keys, key) {
      assert i < |before| ==> trace[i] == before[i];
    }
  }

  /** Linking in at the lowest level adds the key; above it changes nothing. */
  lemma KeysGrow(a: Snap, b: Snap, x: nat, level: nat, q: nat)
    requires GoodSnap(a) && GoodSnap(b) && b.s.keys == a.s.keys && level < MAX_HEIGHT && q <= |a.cs[level]| && x < |a.s.keys|
    requires b.cs == a.cs[level := InsertAt(a.cs[level], q, x)] && (level > 0 ==> x in a.cs[level - 1])
    ensures level == 0 ==> KeysOf(b.s, b.cs) == KeysOf(a.s, a.cs) + {a.s.keys[x]}
    ensures level > 0 ==> KeysOf(b.s, b.cs) == KeysOf(a.s, a.cs)
  {
    if level == 0 {
      var c, d := a.cs[0], b.cs[0];
      InsertIndex(c, q, x);
      forall k | k in KeysOf(a.s, a.cs) ensures k in KeysOf(b.s, b.cs) {
        var i :| 0 <= i < |c| && a.s.keys[c[i]] == k;
        if i < q { assert d[i] == c[i]; } else { assert d[i + 1] == c[i]; }
      }
      assert d[q] == x;
    }
  }

  /** Whatever is on a higher level is in the set. */
  lemma {:induction false} KeysBelow(s: Links, cs: seq<seq<nat>>, level: nat)
    requires Good(s, cs) && level < MAX_HEIGHT
    ensures Nested(cs[level], cs[0])
    ensures ChainOk(s, level, cs[level]) && forall i :: 0 <= i < |cs[level]| ==> s.keys[cs[level][i]] in KeysOf(s, cs)
  {
    assert ChainOk(s, level, cs[level]);
    if level > 0 {
      KeysBelow(s, cs, level - 1);
      assert Nested(cs[level], cs[level - 1]);
    }
    forall i | 0 <= i < |cs[level]| ensures s.keys[cs[level][i]] in KeysOf(s, cs) {
      assert cs[level][i] in cs[0];
      var j :| 0 <= j < |cs[0]| && cs[0][j] == cs[level][i];
    }
  }

  /** x can be linked in at this level, right after prev, the q-th node there. */
  ghost predicate Ready(s: Links, cs: seq<seq<nat>>, x: nat, level: nat, prev: nat, q: nat)
    requires Good(s, cs)
  {
    && level < s.maxHeight && OnLevel(s, x, level) && x !in cs[level] && (level > 0 ==> x in cs[level - 1])
    && ChainOk(s, level, cs[level]) && Splits(s, cs[level], s.keys[x], q) && prev == At(cs[level], q)
    && forall i :: 0 <= i < |cs[level]| ==> s.keys[cs[level][i]] != s.keys[x]
  }

  lemma PublishGrows(a: Snap, b: Snap, x: nat, level: nat, q: nat)
    requires |a.cs| == MAX_HEIGHT && level < MAX_HEIGHT && q <= |a.cs[level]|
    requires b.s.keys == a.s.keys && b.cs == a.cs[level := InsertAt(a.cs[level], q, x)]
    ensures Grows(a, b)
  {
    InsertIndex(a.cs[level], q, x);
  }

  lemma Positions(s: Links, cs: seq<seq<nat>>, target: int, prev: seq<nat>) returns (qs: seq<nat>)
    requires Good(s, cs) && |prev| <= MAX_HEIGHT
    requires forall l :: 0 <= l < |prev| ==> ChainOk(s, l, cs[l]) && IsPrev(s, cs[l], target, prev[l])
    ensures |qs| == |prev|
    ensures forall l :: 0 <= l < |prev| ==> ChainOk(s, l, cs[l]) && Splits(s, cs[l], target, qs[l]) && prev[l] == At(cs[l], qs[l])
  {
    qs := [];
    while |qs| < |prev|
      invariant |qs| <= |prev|
      invariant forall l :: 0 <= l < |qs| ==> ChainOk(s, l, cs[l]) && Splits(s, cs[l], target, qs[l]) && prev[l] == At(cs[l], qs[l])
    {
      var l := |qs|;
      assert IsPrev(s, cs[l], target, prev[l]);
      var q: nat :| Splits(s, cs[l], target, q) && prev[l] == At(cs[l], q);
      qs := qs + [q];
    }
  }
}
