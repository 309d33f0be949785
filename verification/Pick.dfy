/** Where a compaction starts (db/version_set.cc, PickCompaction and CompactRange): every
    choice these make is one SetupOtherInputs turns into safe inputs. */
module Pick {
  import opened InternalKeys
  import opened Versions
  import opened Overlap
  import opened Selection

  datatype KeyOpt = NoKey | SomeKey(key: IKey)

  /** File i is the first after the pointer; the first of the level when there is no
      pointer or no file after it. */
  ghost predicate IsNext(files: seq<File>, pointer: KeyOpt, i: nat) {
    && i < |files| && (pointer.NoKey? ==> i == 0)
    && (pointer.SomeKey? && Lt(pointer.key, files[i].largest) ==>
          forall j :: 0 <= j < i ==> !Lt(pointer.key, files[j].largest))
    && (pointer.SomeKey? && !Lt(pointer.key, files[i].largest) ==>
          i == 0 && forall j :: 0 <= j < |files| ==> !Lt(pointer.key, files[j].largest))
  }

  method NextFile(files: seq<File>, pointer: KeyOpt) returns (i: nat)
    requires files != []
    ensures IsNext(files, pointer, i)
  {
    i := 0;
    while i < |files|
      invariant i <= |files| && (pointer.NoKey? ==> i == 0)
      invariant pointer.SomeKey? ==> forall j :: 0 <= j < i ==> !Lt(pointer.key, files[j].largest)
    {
      if pointer.NoKey? || Lt(pointer.key, files[i].largest) { return; }
      i := i + 1;
    }
    i := 0;
  }

  lemma LevelRanges(v: Version, level: nat)
    requires WellFormed(v) && level < NUM_LEVELS
    ensures RangesOk(v.levels[level]) && (level > 0 ==> SortedRanges(v.levels[level]))
  {
    if level == 0 {
      var files := v.levels[0];
      forall i | 0 <= i < |files| ensures files[i].RangeOk() {
        assert files[i].Valid();
        if |files[i].entries| > 1 { assert Lt(files[i].entries[0].ik, files[i].entries[|files[i].entries| - 1].ik); }
      }
    } else {
      assert SortedLevel(v.levels[level]);
    }
  }

  /** A closed choice of level-0 files is a seed. */
  lemma ClosedIsApart(files: seq<File>, begin: Bound, end: Bound, inputs: seq<File>)
    requires ClosedChoice(files, begin, end, set f | f in inputs) && forall f :: f in inputs ==> f in files
    ensures Apart(files, inputs)
  {
  }

  /** The file itself, and on level 0 all that overlap it, however indirectly. */
  ghost predicate StartsAt(files: seq<File>, level: nat, f: File, seed: seq<File>) {
    if level > 0 then seed == [f] else LeastChoice(files, At(f.smallest.user), At(f.largest.user), seed)
  }

  /** The file a size or a seek compaction starts from, and on level 0 all that overlap it. */
  method PickInputs(v: Version, level: nat, i: nat) returns (seed: seq<File>)
    requires WellFormed(v) && level < NUM_LEVELS && i < |v.levels[level]|
    ensures Seed(v.levels[level], level, seed) && v.levels[level][i] in seed
    ensures StartsAt(v.levels[level], level, v.levels[level][i], seed)
  {
    var files := v.levels[level];
    LevelRanges(v, level);
    seed := [files[i]];
    if level == 0 {
      var smallest, largest := GetRange(seed);
      seed := GetOverlappingInputs(files, 0, At(smallest.user), At(largest.user));
      assert files[i].RangeOk() && Overlaps(files[i], At(smallest.user), At(largest.user));
      ClosedIsApart(files, At(smallest.user), At(largest.user), seed);
    } else {
      assert IsRun(files, i, i + 1, seed);
    }
  }

  /** PickCompaction: by size from the level's pointer, or the file seeks have worn out. */
  method PickCompaction(v: Version, level: nat, seek: bool, worn: nat, pointer: KeyOpt, byteLimit: nat)
    returns (in0: seq<File>, in1: seq<File>, next: IKey)
    requires WellFormed(v) && level + 1 < NUM_LEVELS && if seek then worn < |v.levels[level]| else v.levels[level] != []
    ensures GoodInputs(v, level, in0, in1) && exists smallest :: IsRange(in0, smallest, next)
    ensures exists i: nat, seed :: (if seek then i == worn else IsNext(v.levels[level], pointer, i)) &&
              i < |v.levels[level]| && v.levels[level][i] in in0 && StartsAt(v.levels[level], level, v.levels[level][i], seed) &&
              Chosen(v.levels[level], v.levels[level + 1], level, seed, byteLimit, in0, in1)
  {
    var i := worn;
    if !seek { i := NextFile(v.levels[level], pointer); }
    var seed := PickInputs(v, level, i);
    var grandparents;
    in0, in1, grandparents, next := SetupOtherInputs(v, level, seed, byteLimit);
  }

  /** Stops a manual compaction of a sorted level at a size limit. */
  method Trim(inputs: seq<File>, limit: nat) returns (n: nat)
    requires inputs != []
    ensures 1 <= n <= |inputs|
    ensures n < |inputs| ==> TotalFileSize(inputs[..n]) >= limit
    ensures forall k :: 0 < k < n ==> TotalFileSize(inputs[..k]) < limit
  {
    n := 0;
    var total := 0;
    while n < |inputs|
      invariant n <= |inputs| && total == TotalFileSize(inputs[..n])
      invariant forall k :: 0 < k <= n ==> TotalFileSize(inputs[..k]) < limit
    {
      assert inputs[..n + 1][..n] == inputs[..n];
      total := total + inputs[n].size;
      n := n + 1;
      if total >= limit { return; }
    }
  }

  /** What a manual compaction of the range starts from: on level 0 the least closed choice,
      else the overlapping files up to the one that reaches the size limit. */
  ghost predicate StartsIn(files: seq<File>, level: nat, begin: Bound, end: Bound, limit: nat, seed: seq<File>) {
    if level == 0 then LeastChoice(files, begin, end, seed) else
      && seed != [] && seed <= Filter(files, begin, end)
      && (seed != Filter(files, begin, end) ==> TotalFileSize(seed) >= limit)
      && forall k :: 0 < k < |seed| ==> TotalFileSize(seed[..k]) < limit
  }

  lemma EmptyIsClosed(files: seq<File>, begin: Bound, end: Bound)
    ensures Filter(files, begin, end) == [] ==> ClosedChoice(files, begin, end, {})
  {
    FilterMembers(files, |files|, begin, end);
    assert files[..|files|] == files;
  }

  /** The files a manual compaction starts from. */
  method RangeSeed(files: seq<File>, level: nat, begin: Bound, end: Bound, limit: nat) returns (seed: seq<File>)
    requires RangesOk(files) && (level > 0 ==> SortedRanges(files))
    ensures seed == [] <==> Filter(files, begin, end) == []
    ensures seed != [] ==> Seed(files, level, seed) && StartsIn(files, level, begin, end, limit, seed)
  {
    seed := GetOverlappingInputs(files, level, begin, end);
    ghost var all := Filter(files, begin, end);
    if level == 0 {
      Level0Seed(files, begin, end, seed);
    } else if seed != [] {
      ghost var lo, hi := FilterIsRun(files, begin, end);
      var n := Trim(seed, limit);
      assert forall k :: 0 < k < n ==> seed[..n][..k] == seed[..k];
      seed := seed[..n];
      assert IsRun(files, lo, lo + n, seed);
    }
  }

  lemma Level0Seed(files: seq<File>, begin: Bound, end: Bound, seed: seq<File>)
    requires LeastChoice(files, begin, end, seed) && forall f :: f in seed ==> f in files
    ensures seed == [] <==> Filter(files, begin, end) == []
    ensures Apart(files, seed) && forall f :: f in Filter(files, begin, end) ==> f in seed
  {
    ClosedIsApart(files, begin, end, seed);
    EmptyIsClosed(files, begin, end);
    FilterMembers(files, |files|, begin, end);
    assert files[..|files|] == files;
    var all, S := Filter(files, begin, end), set f | f in seed;
    forall f | f in all ensures f in seed {
      assert f in S;
    }
    assert all == [] ==> S <= {};
    assert seed != [] ==> seed[0] in S;
    assert all != [] ==> all[0] in seed;
  }

  lemma SomeOverlap(files: seq<File>, begin: Bound, end: Bound)
    ensures Filter(files, begin, end) != [] <==> exists f :: f in files && Overlaps(f, begin, end)
  {
    FilterMembers(files, |files|, begin, end);
    assert files[..|files|] == files;
    var all := Filter(files, begin, end);
    if all != [] { assert all[0] in all; }
  }

  /** CompactRange: none when nothing overlaps the range. */
  method CompactRange(v: Version, level: nat, begin: Bound, end: Bound, limit: nat, byteLimit: nat)
    returns (ok: bool, in0: seq<File>, in1: seq<File>)
    requires WellFormed(v) && level + 1 < NUM_LEVELS
    ensures ok <==> exists f :: f in v.levels[level] && Overlaps(f, begin, end)
    ensures ok ==> GoodInputs(v, level, in0, in1)
    ensures ok ==> exists seed :: StartsIn(v.levels[level], level, begin, end, limit, seed) &&
                     (forall f :: f in seed ==> f in in0) && Chosen(v.levels[level], v.levels[level + 1], level, seed, byteLimit, in0, in1)
  {
    LevelRanges(v, level);
    SomeOverlap(v.levels[level], begin, end);
    in0, in1 := [], [];
    var seed := RangeSeed(v.levels[level], level, begin, end, limit);
    ok := seed != [];
    if ok {
      var grandparents, next;
      in0, in1, grandparents, next := SetupOtherInputs(v, level, seed, byteLimit);
      assert Chosen(v.levels[level], v.levels[level + 1], level, seed, byteLimit, in0, in1);
    }
  }
}
