/** The compaction loop (db/db_impl.cc:1511-1660) and its cursor into the deeper
    levels (db/version_set.cc:2246-2265). */
module Drop {
  import opened InternalKeys
  import opened Versions
  import opened Overlap

  // ----- IsBaseLevelForKey -----

  /** No file two or more levels below the compacted one spans the key. */
  ghost predicate BaseLevel(v: Version, level: nat, k: UserKey) {
    forall l, f :: level + 2 <= l && InLevel(v, l, f) ==> !Spans(f, k)
  }

  /** The part of a Compaction object that IsBaseLevelForKey reads and moves. */
  class LevelCursor {
    const version: Version
    const level: nat
    var ptrs: seq<nat>

    ghost predicate Valid()
      reads this
    {
      && |version.levels| == NUM_LEVELS == |ptrs|
      && (forall l :: level + 2 <= l < NUM_LEVELS ==> SortedRanges(version.levels[l]))
      && (forall l :: 0 <= l < NUM_LEVELS ==> ptrs[l] <= |version.levels[l]|)
    }

    /** Every file already stepped over ends before the key. */
    ghost predicate Behind(k: UserKey)
      requires Valid()
      reads this
    {
      forall l, i :: level + 2 <= l < NUM_LEVELS && 0 <= i < ptrs[l] ==> version.levels[l][i].largest.user < k
    }

    constructor (v: Version, lvl: nat)
      requires WellFormed(v)
      ensures Valid() && version == v && level == lvl
      ensures forall k :: Behind(k)
    {
      version, level := v, lvl;
      ptrs := seq(NUM_LEVELS, i => 0);
    }

    /** Asked about keys in nondecreasing order, the cursor answers as a scan of all
        deeper files would. */
    method IsBaseLevelForKey(k: UserKey) returns (r: bool)
      requires Valid() && Behind(k)
      modifies this
      ensures Valid() && forall k' :: k <= k' ==> Behind(k')
      ensures r <==> BaseLevel(version, level, k)
    {
      var lvl := level + 2;
      while lvl < NUM_LEVELS
        invariant level + 2 <= lvl
        invariant Valid() && Behind(k)
        invariant forall l, f :: level + 2 <= l < lvl && InLevel(version, l, f) ==> !Spans(f, k)
        decreases NUM_LEVELS - lvl
      {
        var files := version.levels[lvl];
        while ptrs[lvl] < |files|
          invariant Valid() && Behind(k)
          invariant files == version.levels[lvl]
          decreases |files| - ptrs[lvl]
        {
          var f := files[ptrs[lvl]];
          if k <= f.largest.user {
            if k >= f.smallest.user {
              assert InLevel(version, lvl, f);
              return false;
            }
            break;
          }
          ptrs := ptrs[lvl := ptrs[lvl] + 1];
        }
        LevelClear(files, ptrs[lvl], k);
        lvl := lvl + 1;
      }
      r := true;
    }
  }

  lemma LevelClear(files: seq<File>, p: nat, k: UserKey)
    requires SortedRanges(files) && p <= |files|
    requires forall i :: 0 <= i < p ==> files[i].largest.user < k
    requires p < |files| ==> k < files[p].smallest.user
    ensures forall f :: f in files ==> !Spans(f, k)
  {
    forall i | 0 <= i < |files| ensures !Spans(files[i], k) {
      if p < i { UserRanges(files, p, i); }
    }
  }

  // ----- the drop rule -----

  /** What the loop decides for the i-th entry of the merged inputs. */
  ghost predicate Dropped(v: Version, level: nat, t: nat, es: seq<Entry>, i: nat)
    requires i < |es|
  {
    || Hidden(t, es, i)
    || (es[i].kind == TypeDeletion && es[i].ik.sn <= t && BaseLevel(v, level, es[i].ik.user))
  }

  /** Rule (A): the previous entry is a version of the same key that every snapshot sees. */
  predicate Hidden(t: nat, es: seq<Entry>, i: nat)
    requires i < |es|
  {
    i > 0 && es[i - 1].ik.user == es[i].ik.user && es[i - 1].ik.sn <= t
  }

  ghost function Kept(v: Version, level: nat, t: nat, es: seq<Entry>, n: nat): seq<Entry>
    requires n <= |es|
  {
    if n == 0 then []
    else Kept(v, level, t, es, n - 1) + if Dropped(v, level, t, es, n - 1) then [] else [es[n - 1]]
  }

  function Flatten(outs: seq<seq<Entry>>): seq<Entry> {
    if outs == [] then [] else Flatten(outs[..|outs| - 1]) + outs[|outs| - 1]
  }

  predicate NoEmptyTable(outs: seq<seq<Entry>>) {
    forall i :: 0 <= i < |outs| ==> outs[i] != []
  }

  /** The output side of a CompactionState: finished tables and the one being built. */
  datatype Output = Output(tables: seq<seq<Entry>>, builder: seq<Entry>) {
    function Written(): seq<Entry> {
      Flatten(tables) + builder
    }
    /** FinishCompactionOutputFile, when a table is open */
    function Finish(): (o: Output)
      requires NoEmptyTable(tables)
      ensures NoEmptyTable(o.tables) && o.builder == [] && o.Written() == Written()
      ensures Flatten(o.tables) == Written()
    {
      if builder == [] then this else
        assert (tables + [builder])[..|tables|] == tables;
        Output(tables + [builder], [])
    }
    function Add(e: Entry): (o: Output)
      ensures o.tables == tables && o.Written() == Written() + [e]
    {
      Output(tables, builder + [e])
    }
  }

  /** The output part of one round: close a table before the entry, add it unless it is
      dropped, close a full table. */
  function Emit(out: Output, e: Entry, stop: bool, drop: bool, full: bool): (o: Output)
    requires NoEmptyTable(out.tables)
    ensures NoEmptyTable(o.tables) && o.Written() == out.Written() + if drop then [] else [e]
  {
    var open := if stop then out.Finish() else out;
    if drop then open else if full then open.Add(e).Finish() else open.Add(e)
  }

  ghost function Drops(v: Version, level: nat, t: nat, es: seq<Entry>): seq<bool> {
    seq(|es|, i requires 0 <= i < |es| => Dropped(v, level, t, es, i))
  }

  /** The output after n rounds, given which entries are dropped. */
  function OutputTo(es: seq<Entry>, drops: seq<bool>, stopBefore: nat -> bool, full: nat -> bool, n: nat): (o: Output)
    requires n <= |es| == |drops|
    ensures NoEmptyTable(o.tables)
  {
    if n == 0 then Output([], [])
    else Emit(OutputTo(es, drops, stopBefore, full, n - 1), es[n - 1], stopBefore(n - 1), drops[n - 1], full(n - 1))
  }

  /** How many tables are finished, and whether one is open. */
  datatype Count = Count(tables: nat, open: bool)

  function CountOf(o: Output): Count {
    Count(|o.tables|, o.builder != [])
  }

  /** The table an entry goes to. */
  function Place(c: Count, stop: bool): nat {
    if stop && c.open then c.tables + 1 else c.tables
  }

  function Counted(c: Count, stop: bool, drop: bool, full: bool): Count {
    if drop then Count(Place(c, stop), c.open && !stop)
    else if full then Count(Place(c, stop) + 1, false) else Count(Place(c, stop), true)
  }

  lemma EmitCounts(o: Output, e: Entry, stop: bool, drop: bool, full: bool)
    requires NoEmptyTable(o.tables)
    ensures CountOf(Emit(o, e, stop, drop, full)) == Counted(CountOf(o), stop, drop, full)
  {
  }

  /** Something asks for a new table after entry i and not later than before entry k. */
  ghost predicate Asked(stopBefore: nat -> bool, full: nat -> bool, i: nat, k: nat) {
    full(i) || exists n: nat :: i < n <= k && stopBefore(n)
  }

  lemma AskedNext(stopBefore: nat -> bool, full: nat -> bool, i: nat, k: nat)
    requires i <= k
    ensures Asked(stopBefore, full, i, k + 1) <==> Asked(stopBefore, full, i, k) || stopBefore(k + 1)
    ensures Asked(stopBefore, full, i, i) <==> full(i)
  {
  }

  function CountTo(drops: seq<bool>, stopBefore: nat -> bool, full: nat -> bool, n: nat): Count
    requires n <= |drops|
  {
    if n == 0 then Count(0, false)
    else Counted(CountTo(drops, stopBefore, full, n - 1), stopBefore(n - 1), drops[n - 1], full(n - 1))
  }

  lemma {:induction false} CountIs(es: seq<Entry>, drops: seq<bool>, stopBefore: nat -> bool, full: nat -> bool, n: nat)
    requires n <= |es| == |drops|
    ensures CountOf(OutputTo(es, drops, stopBefore, full, n)) == CountTo(drops, stopBefore, full, n)
  {
    if n > 0 {
      CountIs(es, drops, stopBefore, full, n - 1);
      EmitCounts(OutputTo(es, drops, stopBefore, full, n - 1), es[n - 1], stopBefore(n - 1), drops[n - 1], full(n - 1));
    }
  }

  /** Until the next entry is kept, the table of entry i is closed as soon as that is asked
      for, and no other is begun. */
  lemma {:induction false} Between(drops: seq<bool>, stopBefore: nat -> bool, full: nat -> bool, i: nat, k: nat)
    requires i <= k < |drops| && !drops[i] && forall n :: i < n <= k ==> drops[n]
    ensures CountTo(drops, stopBefore, full, k + 1) ==
            var T := Place(CountTo(drops, stopBefore, full, i), stopBefore(i));
            if Asked(stopBefore, full, i, k) then Count(T + 1, false) else Count(T, true)
    decreases k
  {
    if i == k {
      AskedNext(stopBefore, full, i, i);
    } else {
      Between(drops, stopBefore, full, i, k - 1);
      AskedNext(stopBefore, full, i, k - 1);
    }
  }

  /** The table that the i-th entry goes to if it is kept. */
  function TableOf(es: seq<Entry>, drops: seq<bool>, stopBefore: nat -> bool, full: nat -> bool, i: nat): nat
    requires i < |es| == |drops|
  {
    Place(CountOf(OutputTo(es, drops, stopBefore, full, i)), stopBefore(i))
  }

  lemma TableIs(es: seq<Entry>, drops: seq<bool>, stopBefore: nat -> bool, full: nat -> bool, i: nat)
    requires i < |es| == |drops|
    ensures TableOf(es, drops, stopBefore, full, i) == Place(CountTo(drops, stopBefore, full, i), stopBefore(i))
  {
    CountIs(es, drops, stopBefore, full, i);
  }

  lemma NextPlace(drops: seq<bool>, stopBefore: nat -> bool, full: nat -> bool, i: nat, j: nat)
    requires i < j < |drops| && !drops[i] && forall n :: i < n < j ==> drops[n]
    ensures Place(CountTo(drops, stopBefore, full, j), stopBefore(j)) ==
            Place(CountTo(drops, stopBefore, full, i), stopBefore(i)) + if Asked(stopBefore, full, i, j) then 1 else 0
  {
    Between(drops, stopBefore, full, i, j - 1);
    AskedNext(stopBefore, full, i, j - 1);
  }

  /** Of two entries kept one after the other the second starts a table exactly if one was
      asked for in between. */
  lemma CutWhereAsked(es: seq<Entry>, drops: seq<bool>, stopBefore: nat -> bool, full: nat -> bool, i: nat, j: nat)
    requires i < j < |es| == |drops| && !drops[i] && forall n :: i < n < j ==> drops[n]
    ensures TableOf(es, drops, stopBefore, full, j) ==
            TableOf(es, drops, stopBefore, full, i) + if Asked(stopBefore, full, i, j) then 1 else 0
  {
    TableIs(es, drops, stopBefore, full, i);
    TableIs(es, drops, stopBefore, full, j);
    NextPlace(drops, stopBefore, full, i, j);
  }

  /** The decision part of one round of the loop. */
  method Decide(cursor: LevelCursor, smallestSnapshot: nat, e: Entry, lastSequenceForKey: nat) returns (drop: bool)
    requires cursor.Valid() && cursor.Behind(e.ik.user)
    modifies cursor
    ensures cursor.Valid() && forall k :: e.ik.user <= k ==> cursor.Behind(k)
    ensures drop <==>
              || lastSequenceForKey <= smallestSnapshot
              || (e.kind == TypeDeletion && e.ik.sn <= smallestSnapshot
                  && BaseLevel(cursor.version, cursor.level, e.ik.user))
  {
    drop := false;
    if lastSequenceForKey <= smallestSnapshot {
      drop := true;
    } else if e.kind == TypeDeletion && e.ik.sn <= smallestSnapshot {
      drop := cursor.IsBaseLevelForKey(e.ik.user);
    }
  }

  /** DoCompactionWork. `stopBefore` and `full` stand for the sizing decisions that
      cut the output into tables; the contents do not depend on them. */
  method DoCompactionWork(v: Version, level: nat, smallestSnapshot: nat, input: seq<Entry>,
                          stopBefore: nat -> bool, full: nat -> bool)
    returns (tables: seq<seq<Entry>>)
    requires WellFormed(v) && Sorted(input) && smallestSnapshot < MAX_SEQUENCE
    ensures Flatten(tables) == Kept(v, level, smallestSnapshot, input, |input|)
    ensures NoEmptyTable(tables)
    ensures tables == OutputTo(input, Drops(v, level, smallestSnapshot, input), stopBefore, full, |input|).Finish().tables
  {
    var cursor := new LevelCursor(v, level);
    var current: UserKey := 0;
    var hasCurrent := false;
    var lastSequenceForKey := MAX_SEQUENCE;
    var out := Output([], []);
    for i := 0 to |input|
      invariant cursor.Valid() && cursor.version == v && cursor.level == level
      invariant i < |input| ==> cursor.Behind(input[i].ik.user)
      invariant out.Written() == Kept(v, level, smallestSnapshot, input, i)
      invariant out == OutputTo(input, Drops(v, level, smallestSnapshot, input), stopBefore, full, i)
      invariant hasCurrent <==> i > 0
      invariant i > 0 ==> current == input[i - 1].ik.user && lastSequenceForKey == input[i - 1].ik.sn
    {
      var e := input[i];
      if !hasCurrent || e.ik.user != current {
        current := e.ik.user;
        hasCurrent := true;
        lastSequenceForKey := MAX_SEQUENCE;
      }
      var drop := Decide(cursor, smallestSnapshot, e, lastSequenceForKey);
      lastSequenceForKey := e.ik.sn;
      assert drop <==> Dropped(v, level, smallestSnapshot, input, i);
      out := Emit(out, e, stopBefore(i), drop, full(i));
      assert i + 1 < |input| ==> Lt(input[i].ik, input[i + 1].ik);
    }
    out := out.Finish();
    tables := out.tables;
  }
}
