/** DBIter: a two-way cursor over user keys on top of a cursor over all versions
    (db/db_iter.cc:266-425). */
module DbIter {
  import opened InternalKeys
  import opened Versions

  // ----- the sorted map the cursor must walk -----

  /** What the snapshot holds for a key. */
  ghost predicate Live(es: seq<Entry>, s: nat, k: UserKey, v: string) {
    Look(Elems(es), k, s) == Found(v)
  }

  /** A lower and an upper end for searches in key order. */
  datatype Low = Everything | From(k: UserKey) | After(k: UserKey)
  datatype High = Anything | Before(k: UserKey)

  predicate InLow(l: Low, k: UserKey) {
    match l case Everything => true case From(b) => b <= k case After(b) => b < k
  }

  predicate InHigh(h: High, k: UserKey) {
    match h case Anything => true case Before(b) => k < b
  }

  ghost predicate Least(es: seq<Entry>, s: nat, l: Low, k: UserKey, v: string) {
    && Live(es, s, k, v) && InLow(l, k)
    && forall k', v' :: InLow(l, k') && Live(es, s, k', v') ==> k <= k'
  }

  ghost predicate Greatest(es: seq<Entry>, s: nat, h: High, k: UserKey, v: string) {
    && Live(es, s, k, v) && InHigh(h, k)
    && forall k', v' :: InHigh(h, k') && Live(es, s, k', v') ==> k' <= k
  }

  ghost predicate NoneLow(es: seq<Entry>, s: nat, l: Low) {
    forall k, v :: InLow(l, k) ==> !Live(es, s, k, v)
  }

  ghost predicate NoneHigh(es: seq<Entry>, s: nat, h: High) {
    forall k, v :: InHigh(h, k) ==> !Live(es, s, k, v)
  }

  // ----- positions -----

  predicate Vis(es: seq<Entry>, s: nat, i: int)
    requires 0 <= i < |es|
  {
    es[i].ik.sn <= s
  }

  /** The newest version of its key that the snapshot sees. */
  ghost predicate Head(es: seq<Entry>, s: nat, i: int)
    requires 0 <= i < |es|
  {
    Vis(es, s, i) && forall j :: 0 <= j < i && es[j].ik.user == es[i].ik.user ==> !Vis(es, s, j)
  }

  ghost predicate Shows(es: seq<Entry>, s: nat, i: int)
    requires 0 <= i < |es|
  {
    Head(es, s, i) && es[i].kind == TypeValue
  }

  lemma HeadDecides(es: seq<Entry>, s: nat, i: int)
    requires Sorted(es) && 0 <= i < |es| && Head(es, s, i)
    ensures Look(Elems(es), es[i].ik.user, s) == OutcomeOf(es[i])
  {
    SortedDistinct(es);
    assert Newest(Elems(es), es[i].ik.user, s, es[i]);
    LookIs(Elems(es), es[i].ik.user, s, es[i]);
  }

  lemma LiveHead(es: seq<Entry>, s: nat, k: UserKey, v: string) returns (i: int)
    requires Sorted(es) && Live(es, s, k, v)
    ensures 0 <= i < |es| && Shows(es, s, i) && es[i].ik.user == k && es[i].value == v
  {
    var e :| Newest(Elems(es), k, s, e);
    i :| 0 <= i < |es| && es[i] == e;
    forall j | 0 <= j < i && es[j].ik.user == k ensures !Vis(es, s, j) {
      assert es[j] in Elems(es) && Lt(es[j].ik, es[i].ik);
    }
    HeadDecides(es, s, i);
  }

  // ----- scanning forward -----

  /** Where a forward scan stands at position p: every key of interest still has all
      its visible versions ahead, except keys known hidden. */
  ghost predicate Ahead(es: seq<Entry>, s: nat, l: Low, p: int, skipping: bool, skip: UserKey) {
    && 0 <= p <= |es|
    && (forall i :: 0 <= i < p && Vis(es, s, i) && InLow(l, es[i].ik.user) ==> skipping && es[i].ik.user <= skip)
    && (forall i :: p <= i < |es| && Vis(es, s, i) ==>
          (InLow(l, es[i].ik.user) || (skipping && es[i].ik.user <= skip)) && (skipping ==> skip <= es[i].ik.user))
    && (forall k, v :: InLow(l, k) && Live(es, s, k, v) ==> skipping ==> skip < k)
  }

  lemma AheadStep(es: seq<Entry>, s: nat, l: Low, p: int, skipping: bool, skip: UserKey)
    requires Sorted(es) && Ahead(es, s, l, p, skipping, skip) && p < |es|
    ensures !Vis(es, s, p) ==> Ahead(es, s, l, p + 1, skipping, skip)
    ensures Vis(es, s, p) && es[p].kind == TypeDeletion ==> Ahead(es, s, l, p + 1, true, es[p].ik.user)
    ensures Vis(es, s, p) && es[p].kind == TypeValue && skipping && es[p].ik.user <= skip
            ==> Ahead(es, s, l, p + 1, skipping, skip)
    ensures Vis(es, s, p) && es[p].kind == TypeValue && !(skipping && es[p].ik.user <= skip)
            ==> Shows(es, s, p) && Least(es, s, l, es[p].ik.user, es[p].value)
  {
    if Vis(es, s, p) && es[p].kind == TypeDeletion {
      AheadDeletion(es, s, l, p, skipping, skip);
    } else if Vis(es, s, p) && !(skipping && es[p].ik.user <= skip) {
      AheadFound(es, s, l, p, skipping, skip);
    }
  }

  lemma AheadDeletion(es: seq<Entry>, s: nat, l: Low, p: int, skipping: bool, skip: UserKey)
    requires Sorted(es) && Ahead(es, s, l, p, skipping, skip) && p < |es|
    requires Vis(es, s, p) && es[p].kind == TypeDeletion
    ensures Ahead(es, s, l, p + 1, true, es[p].ik.user)
  {
    var k0 := es[p].ik.user;
    forall k, v | InLow(l, k) && Live(es, s, k, v) ensures k0 < k {
      var i := LiveHead(es, s, k, v);
      if i > p { assert Lt(es[p].ik, es[i].ik); }
    }
  }

  lemma AheadFound(es: seq<Entry>, s: nat, l: Low, p: int, skipping: bool, skip: UserKey)
    requires Sorted(es) && Ahead(es, s, l, p, skipping, skip) && p < |es|
    requires Vis(es, s, p) && es[p].kind == TypeValue && !(skipping && es[p].ik.user <= skip)
    ensures Shows(es, s, p) && Least(es, s, l, es[p].ik.user, es[p].value)
  {
    HeadDecides(es, s, p);
    forall k, v | InLow(l, k) && Live(es, s, k, v) ensures es[p].ik.user <= k {
      var i := LiveHead(es, s, k, v);
      if i > p { assert Lt(es[p].ik, es[i].ik); }
    }
  }

  lemma AheadEnd(es: seq<Entry>, s: nat, l: Low, skipping: bool, skip: UserKey)
    requires Sorted(es) && Ahead(es, s, l, |es|, skipping, skip)
    ensures NoneLow(es, s, l)
  {
    forall k, v | InLow(l, k) ensures !Live(es, s, k, v) {
      if Live(es, s, k, v) {
        var i := LiveHead(es, s, k, v);
      }
    }
  }

  // ----- scanning backward -----

  /** Where a backward scan stands: positions above p are done, j is the last visible
      one among them (|es| when there was none yet). */
  ghost predicate Behind(es: seq<Entry>, s: nat, h: High, p: int, j: int, kind: ValueType, key: UserKey, value: string) {
    && -1 <= p < j <= |es|
    && (forall i :: 0 <= i <= p ==> InHigh(h, es[i].ik.user))
    && (forall i :: p < i < j && Vis(es, s, i) ==> !InHigh(h, es[i].ik.user))
    && (j == |es| ==> kind == TypeDeletion)
    && (j < |es| ==> Vis(es, s, j) && InHigh(h, es[j].ik.user) && kind == es[j].kind)
    && (j < |es| && kind == TypeValue ==> key == es[j].ik.user && value == es[j].value)
    && (forall k, v :: InHigh(h, k) && Live(es, s, k, v) && j < |es| ==> k <= es[j].ik.user)
  }

  lemma BehindHead(es: seq<Entry>, s: nat, h: High, p: int, j: int, kind: ValueType, key: UserKey, value: string)
    requires Sorted(es) && Behind(es, s, h, p, j, kind, key, value) && j < |es|
    requires forall i :: 0 <= i <= p ==> es[i].ik.user < es[j].ik.user
    ensures Head(es, s, j)
    ensures Look(Elems(es), es[j].ik.user, s) == OutcomeOf(es[j])
  {
    forall i | 0 <= i < j && es[i].ik.user == es[j].ik.user ensures !Vis(es, s, i) {
    }
    HeadDecides(es, s, j);
  }

  /** The scan stops: a value, and the entry at p belongs to a smaller key. */
  lemma BehindStop(es: seq<Entry>, s: nat, h: High, p: int, j: int, kind: ValueType, key: UserKey, value: string)
    requires Sorted(es) && Behind(es, s, h, p, j, kind, key, value) && kind == TypeValue
    requires p >= 0 ==> es[p].ik.user < key
    ensures Greatest(es, s, h, key, value) && Resting(es, s, p, key)
  {
    forall i | 0 <= i <= p ensures es[i].ik.user < es[j].ik.user {
      if i < p { assert Lt(es[i].ik, es[p].ik); }
    }
    BehindHead(es, s, h, p, j, kind, key, value);
    forall i | p < i < |es| && es[i].ik.user < key ensures !Vis(es, s, i) {
    }
  }

  /** Direction reverse: only versions the snapshot cannot see lie between the inner
      cursor and the entries of the current key. */
  ghost predicate Resting(es: seq<Entry>, s: nat, p: int, key: UserKey) {
    && -1 <= p < |es| && (p >= 0 ==> es[p].ik.user < key)
    && forall i :: p < i < |es| && es[i].ik.user < key ==> !Vis(es, s, i)
  }

  lemma BehindStep(es: seq<Entry>, s: nat, h: High, p: int, j: int, kind: ValueType, key: UserKey, value: string,
                   key': UserKey, value': string)
    requires Sorted(es) && Behind(es, s, h, p, j, kind, key, value) && p >= 0
    requires Vis(es, s, p) && !(kind == TypeValue && es[p].ik.user < key)
    requires es[p].kind == TypeValue ==> key' == es[p].ik.user && value' == es[p].value
    ensures Behind(es, s, h, p - 1, p, es[p].kind, key', value')
  {
    forall k, v | InHigh(h, k) && Live(es, s, k, v) ensures k <= es[p].ik.user {
      var i := LiveHead(es, s, k, v);
      if i < p {
        assert Lt(es[i].ik, es[p].ik);
      } else if j < |es| && es[p].ik.user < es[j].ik.user {
        NotDeletedHead(es, s, h, p, j, i);
      }
    }
  }

  lemma NotDeletedHead(es: seq<Entry>, s: nat, h: High, p: int, j: int, i: int)
    requires Sorted(es) && -1 <= p < j < |es| && p <= i < |es| && 0 <= i
    requires forall n :: p < n < j && Vis(es, s, n) ==> !InHigh(h, es[n].ik.user)
    requires Vis(es, s, j) && es[j].kind == TypeDeletion
    requires Shows(es, s, i) && InHigh(h, es[i].ik.user) && es[i].ik.user <= es[j].ik.user
    ensures i == p
  {
  }

  lemma BehindEnd(es: seq<Entry>, s: nat, h: High, j: int, key: UserKey, value: string)
    requires Sorted(es) && Behind(es, s, h, -1, j, TypeDeletion, key, value)
    ensures NoneHigh(es, s, h)
  {
    forall k, v | InHigh(h, k) ensures !Live(es, s, k, v) {
      if Live(es, s, k, v) {
        var i := LiveHead(es, s, k, v);
        BehindHead(es, s, h, -1, j, TypeDeletion, key, value);
      }
    }
  }

  // ----- the iterator -----

  class Iterator {
    const entries: seq<Entry>      // what the merged inner iterator runs over
    const sequence: nat
    var pos: int                   // the inner iterator, -1 when it is not valid
    var forward: bool
    var valid: bool
    var savedKey: UserKey
    var savedValue: string

    ghost predicate Ok()
      reads this
    {
      && Sorted(entries) && -1 <= pos < |entries|
      && (valid && forward ==> 0 <= pos && Shows(entries, sequence, pos))
      && (valid && !forward ==> Live(entries, sequence, savedKey, savedValue)
                                && Resting(entries, sequence, pos, savedKey))
    }

    function Key(): UserKey
      requires Ok() && valid
      reads this
    {
      if forward then entries[pos].ik.user else savedKey
    }

    function Value(): string
      requires Ok() && valid
      reads this
    {
      if forward then entries[pos].value else savedValue
    }

    constructor (es: seq<Entry>, s: nat)
      requires Sorted(es)
      ensures Ok() && !valid && entries == es && sequence == s
    {
      entries, sequence := es, s;
      pos, forward, valid, savedKey, savedValue := -1, true, false, 0, "";
    }

    /** Where the cursor stands after a search upward from l. */
    ghost predicate AtLeast(l: Low)
      requires Ok()
      reads this
    {
      if valid then Least(entries, sequence, l, Key(), Value()) else NoneLow(entries, sequence, l)
    }

    ghost predicate AtGreatest(h: High)
      requires Ok()
      reads this
    {
      if valid then Greatest(entries, sequence, h, Key(), Value()) else NoneHigh(entries, sequence, h)
    }

    method FindNextUserEntry(skippingIn: bool, ghost l: Low)
      requires Sorted(entries) && forward && 0 <= pos < |entries|
      requires Ahead(entries, sequence, l, pos, skippingIn, savedKey)
      modifies this
      ensures Ok() && forward && AtLeast(l)
      ensures !valid ==> pos == -1
    {
      var skipping := skippingIn;
      ghost var p := pos;
      while true
        invariant Sorted(entries) && forward && 0 <= p == pos < |entries|
        invariant Ahead(entries, sequence, l, p, skipping, savedKey)
        decreases |entries| - p
      {
        var e := entries[pos];
        AheadStep(entries, sequence, l, p, skipping, savedKey);
        if e.ik.sn <= sequence {
          match e.kind {
            case TypeDeletion =>
              savedKey := e.ik.user;
              skipping := true;
            case TypeValue =>
              if !(skipping && e.ik.user <= savedKey) {
                valid := true;
                savedKey := 0;
                return;
              }
          }
        }
        p := p + 1;
        pos := if pos + 1 < |entries| then pos + 1 else -1;
        if pos < 0 { break; }
      }
      AheadEnd(entries, sequence, l, skipping, savedKey);
      savedKey := 0;
      valid := false;
    }

    method FindPrevUserEntry(ghost h: High)
      requires Sorted(entries) && -1 <= pos < |entries| && !forward
      requires Behind(entries, sequence, h, pos, |entries|, TypeDeletion, savedKey, savedValue)
      modifies this
      ensures Ok() && AtGreatest(h)
    {
      var kind := TypeDeletion;
      ghost var j := |entries|;
      while pos >= 0
        invariant Sorted(entries) && !forward && -1 <= pos < |entries|
        invariant Behind(entries, sequence, h, pos, j, kind, savedKey, savedValue)
        decreases pos
      {
        var e := entries[pos];
        if e.ik.sn <= sequence {
          if kind != TypeDeletion && e.ik.user < savedKey { break; }
          ghost var oldKind, oldKey, oldValue := kind, savedKey, savedValue;
          kind := e.kind;
          if kind == TypeDeletion {
            savedKey := 0;
            savedValue := "";
          } else {
            savedKey := e.ik.user;
            savedValue := e.value;
          }
          BehindStep(entries, sequence, h, pos, j, oldKind, oldKey, oldValue, savedKey, savedValue);
          j := pos;
        }
        pos := pos - 1;
      }
      if kind == TypeDeletion {
        BehindEnd(entries, sequence, h, j, savedKey, savedValue);
        valid := false;
        savedKey := 0;
        savedValue := "";
        forward := true;
      } else {
        BehindStop(entries, sequence, h, pos, j, kind, savedKey, savedValue);
        valid := true;
      }
    }

    method Seek(target: UserKey)
      requires Ok()
      modifies this
      ensures Ok() && AtLeast(From(target))
    {
      forward := true;
      savedValue := "";
      savedKey := target;
      var i := Versions.Seek(entries, IKey(target, sequence));
      SeekAhead(entries, sequence, target, i);
      if i < |entries| {
        pos := i;
        FindNextUserEntry(false, From(target));
      } else {
        AheadEnd(entries, sequence, From(target), false, 0);
        pos := -1;
        valid := false;
      }
    }

    method SeekToFirst()
      requires Ok()
      modifies this
      ensures Ok() && AtLeast(Everything)
    {
      forward := true;
      savedValue := "";
      pos := if |entries| > 0 then 0 else -1;
      if pos >= 0 {
        FindNextUserEntry(false, Everything);
      } else {
        AheadEnd(entries, sequence, Everything, false, 0);
        valid := false;
      }
    }

    method SeekToLast()
      requires Ok()
      modifies this
      ensures Ok() && AtGreatest(Anything)
    {
      forward := false;
      savedValue := "";
      pos := |entries| - 1;
      FindPrevUserEntry(Anything);
    }

    method Next()
      requires Ok() && valid
      modifies this
      ensures Ok() && AtLeast(After(old(Key())))
    {
      ghost var k := Key();
      NextAhead(entries, sequence, forward, pos, k);
      if !forward {
        CurrentAhead(entries, sequence, pos, k, savedValue);
        forward := true;
        if pos < 0 {
          pos := if |entries| > 0 then 0 else -1;
        } else {
          pos := if pos + 1 < |entries| then pos + 1 else -1;
        }
        // The source also gives up here when the inner iterator is exhausted;
        // the entries of the current key rule that out.
        if pos < 0 {
          assert false;
        }
      } else {
        savedKey := entries[pos].ik.user;
      }
      FindNextUserEntry(true, After(k));
      if pos < 0 { valid := false; }
    }

    method Prev()
      requires Ok() && valid
      modifies this
      ensures Ok() && AtGreatest(Before(old(Key())))
    {
      ghost var k := Key();
      if forward {
        savedKey := entries[pos].ik.user;
        while true
          invariant Sorted(entries) && forward && 0 <= pos < |entries| && savedKey == k
          invariant forall i :: pos <= i < |entries| ==> k <= entries[i].ik.user
          decreases pos
        {
          pos := pos - 1;
          if pos < 0 {
            NothingBefore(entries, sequence, k);
            valid := false;
            savedKey := 0;
            savedValue := "";
            return;
          }
          if entries[pos].ik.user < savedKey { break; }
        }
        forward := false;
      }
      PrevBehind(entries, sequence, pos, k);
      FindPrevUserEntry(Before(k));
    }
  }

  lemma SeekAhead(es: seq<Entry>, s: nat, target: UserKey, i: nat)
    requires Sorted(es) && i <= |es|
    requires forall j :: 0 <= j < i ==> Lt(es[j].ik, IKey(target, s))
    requires i < |es| ==> !Lt(es[i].ik, IKey(target, s))
    ensures forall skip :: Ahead(es, s, From(target), i, false, skip)
  {
    forall j | i <= j < |es| ensures target <= es[j].ik.user {
      if i < j { assert Lt(es[i].ik, es[j].ik); }
    }
  }

  /** The scan that Next starts: behind the current entry, or at the first entry after
      the resting place when the direction turns. */
  lemma NextAhead(es: seq<Entry>, s: nat, forward: bool, pos: int, k: UserKey)
    requires Sorted(es) && -1 <= pos < |es|
    requires forward ==> 0 <= pos && Shows(es, s, pos) && es[pos].ik.user == k
    requires !forward ==> Resting(es, s, pos, k)
    ensures Ahead(es, s, After(k), if forward then pos else pos + 1, true, k)
  {
    var p := if forward then pos else pos + 1;
    forall i | 0 <= i < p && Vis(es, s, i) ensures es[i].ik.user <= k {
      if i < pos { assert Lt(es[i].ik, es[pos].ik); }
    }
    forall i | p <= i < |es| && Vis(es, s, i) ensures k <= es[i].ik.user {
      if pos < i && pos >= 0 { assert Lt(es[pos].ik, es[i].ik); }
    }
  }

  lemma CurrentAhead(es: seq<Entry>, s: nat, pos: int, k: UserKey, v: string)
    requires Sorted(es) && -1 <= pos < |es| && Live(es, s, k, v)
    ensures Resting(es, s, pos, k) ==> pos + 1 < |es|
    ensures |es| > 0
  {
    var i := LiveHead(es, s, k, v);
    assert i < pos ==> Lt(es[i].ik, es[pos].ik);
  }

  lemma PrevBehind(es: seq<Entry>, s: nat, pos: int, k: UserKey)
    requires Sorted(es) && Resting(es, s, pos, k)
    ensures forall key, value :: Behind(es, s, Before(k), pos, |es|, TypeDeletion, key, value)
  {
    forall i | 0 <= i <= pos ensures es[i].ik.user < k {
      if i < pos { assert Lt(es[i].ik, es[pos].ik); }
    }
  }

  lemma NothingBefore(es: seq<Entry>, s: nat, k: UserKey)
    requires Sorted(es) && forall i :: 0 <= i < |es| ==> k <= es[i].ik.user
    ensures NoneHigh(es, s, Before(k))
  {
    forall k', v | InHigh(Before(k), k') ensures !Live(es, s, k', v) {
      if Live(es, s, k', v) {
        var i := LiveHead(es, s, k', v);
      }
    }
  }

  // ----- a whole scan -----

  /** In key order, no key twice. */
  predicate InKeyOrder(r: seq<(UserKey, string)>) {
    forall i, j :: 0 <= i < j < |r| ==> r[i].0 < r[j].0
  }

  /** r has the live pairs with keys below the bound. */
  ghost predicate Collected(es: seq<Entry>, s: nat, h: High, r: seq<(UserKey, string)>) {
    InKeyOrder(r) && forall k, v :: (k, v) in r <==> Live(es, s, k, v) && InHigh(h, k)
  }

  lemma CollectFirst(es: seq<Entry>, s: nat, k: UserKey, v: string)
    requires Least(es, s, Everything, k, v)
    ensures Collected(es, s, Before(k), [])
  {
  }

  /** The next live key follows the current one. */
  lemma CollectNext(es: seq<Entry>, s: nat, k: UserKey, v: string, r: seq<(UserKey, string)>, h: High)
    requires Collected(es, s, Before(k), r) && Live(es, s, k, v)
    requires forall k', v' :: Live(es, s, k', v') ==> (InHigh(h, k') <==> k' <= k)
    ensures Collected(es, s, h, r + [(k, v)])
  {
    forall i | 0 <= i < |r| ensures r[i].0 < k { assert (r[i].0, r[i].1) in r; }
  }

  /** The entries at or after a key. */
  ghost function Onward(es: seq<Entry>, k: UserKey): set<Entry> {
    set e | e in es && k <= e.ik.user
  }

  lemma OnwardShrinks(es: seq<Entry>, s: nat, k: UserKey, v: string, k': UserKey)
    requires Sorted(es) && Live(es, s, k, v) && k < k'
    ensures Onward(es, k') < Onward(es, k)
  {
    var i := LiveHead(es, s, k, v);
    assert es[i] in Onward(es, k);
  }

  lemma OnwardNotEmpty(es: seq<Entry>, s: nat, k: UserKey, v: string)
    requires Sorted(es) && Live(es, s, k, v)
    ensures Onward(es, k) != {}
  {
    var i := LiveHead(es, s, k, v);
    assert es[i] in Onward(es, k);
  }

  /** SeekToFirst, then Next until the end: every live key once, in order, with its value. */
  method ScanAll(es: seq<Entry>, s: nat) returns (r: seq<(UserKey, string)>)
    requires Sorted(es)
    ensures Collected(es, s, Anything, r)
  {
    r := [];
    var it := new Iterator(es, s);
    it.SeekToFirst();
    if it.valid { CollectFirst(es, s, it.Key(), it.Value()); }
    while it.valid
      invariant fresh(it) && it.Ok() && it.entries == es && it.sequence == s
      invariant if it.valid then Collected(es, s, Before(it.Key()), r) && Live(es, s, it.Key(), it.Value())
                else Collected(es, s, Anything, r)
      decreases if it.valid then Onward(es, it.Key()) else {}
    {
      var k, v := it.Key(), it.Value();
      it.Next();
      CollectNext(es, s, k, v, r, if it.valid then Before(it.Key()) else Anything);
      r := r + [(k, v)];
      if it.valid { OnwardShrinks(es, s, k, v, it.Key()); } else { OnwardNotEmpty(es, s, k, v); }
    }
  }
}
