/** Choosing compaction inputs (db/version_set.cc:2018-2156). */
module Selection {
  import opened InternalKeys
  import opened Versions
  import opened Overlap

  // ----- what a choice of files at one level must satisfy -----

  /** Level 0: no file left out overlaps a chosen one. */
  ghost predicate Apart(files: seq<File>, chosen: seq<File>) {
    && (forall g :: g in chosen ==> g in files)
    && (forall f, g :: f in files && f !in chosen && g in chosen ==> !Touch(f, g))
  }

  ghost predicate IsRun(files: seq<File>, lo: nat, hi: nat, chosen: seq<File>) {
    lo < hi <= |files| && chosen == files[lo..hi]
  }

  ghost predicate RunEnds(files: seq<File>, hi: nat)
    requires 0 < hi <= |files|
  {
    hi < |files| ==> files[hi].smallest.user != files[hi - 1].largest.user
  }

  /** What callers hand to AddBoundaryInputs: a closed choice on level 0, a run of
      consecutive files on a sorted level. */
  ghost predicate Seed(files: seq<File>, level: nat, chosen: seq<File>) {
    && chosen != [] && RangesOk(files)
    && if level == 0 then Apart(files, chosen)
       else SortedRanges(files) && exists lo, hi :: IsRun(files, lo, hi, chosen)
  }

  /** A seed whose run also ends at a change of user key. */
  ghost predicate SafeRun(files: seq<File>, level: nat, chosen: seq<File>) {
    && chosen != [] && RangesOk(files)
    && if level == 0 then Apart(files, chosen)
       else SortedRanges(files) && exists lo, hi :: IsRun(files, lo, hi, chosen) && RunEnds(files, hi)
  }

  lemma ChosenMembers(files: seq<File>, level: nat, chosen: seq<File>)
    requires Seed(files, level, chosen)
    ensures RangesOk(chosen) && forall f :: f in chosen ==> f in files
  {
    if level == 0 {
      assert forall i :: 0 <= i < |chosen| ==> chosen[i] in files;
    }
  }

  // ----- boundary files -----

  method FindLargestKey(files: seq<File>) returns (largest: IKey)
    requires |files| > 0
    ensures exists i :: 0 <= i < |files| && files[i].largest == largest
    ensures forall i :: 0 <= i < |files| ==> !Lt(largest, files[i].largest)
  {
    largest := files[0].largest;
    for i := 1 to |files|
      invariant exists j :: 0 <= j < |files| && files[j].largest == largest
      invariant forall j :: 0 <= j < i ==> !Lt(largest, files[j].largest)
    {
      if Lt(largest, files[i].largest) { largest := files[i].largest; }
    }
  }

  /** f starts strictly after key but at the same user key. */
  predicate IsBoundary(f: File, key: IKey) {
    Lt(key, f.smallest) && f.smallest.user == key.user
  }

  datatype FileOpt = NoFile | SomeFile(file: File)

  ghost predicate SmallestBoundary(files: seq<File>, key: IKey, r: FileOpt) {
    match r
    case NoFile => forall i :: 0 <= i < |files| ==> !IsBoundary(files[i], key)
    case SomeFile(f) =>
      && f in files && IsBoundary(f, key)
      && forall i :: 0 <= i < |files| && IsBoundary(files[i], key) ==> !Lt(files[i].smallest, f.smallest)
  }

  method FindSmallestBoundaryFile(files: seq<File>, key: IKey) returns (r: FileOpt)
    ensures SmallestBoundary(files, key, r)
  {
    r := NoFile;
    for i := 0 to |files|
      invariant SmallestBoundary(files[..i], key, r)
    {
      var f := files[i];
      assert files[..i + 1] == files[..i] + [f];
      if IsBoundary(f, key) {
        if r.NoFile? || Lt(f.smallest, r.file.smallest) { r := SomeFile(f); }
      }
    }
    assert files[..|files|] == files;
  }

  lemma LargestIsLast(files: seq<File>, lo: nat, hi: nat, largest: IKey)
    requires SortedRanges(files) && lo < hi <= |files|
    requires exists i :: 0 <= i < hi - lo && files[lo..hi][i].largest == largest
    requires forall i :: 0 <= i < hi - lo ==> !Lt(largest, files[lo..hi][i].largest)
    ensures largest == files[hi - 1].largest
  {
    var i :| 0 <= i < hi - lo && files[lo..hi][i].largest == largest;
    assert files[lo..hi][hi - lo - 1] == files[hi - 1];
    assert files[lo..hi][i] == files[lo + i];
    assert files[hi - 1].RangeOk();
  }

  lemma BoundaryIsNext(files: seq<File>, hi: nat, b: FileOpt)
    requires SortedRanges(files) && 0 < hi <= |files|
    requires SmallestBoundary(files, files[hi - 1].largest, b)
    ensures b.SomeFile? ==> hi < |files| && b.file == files[hi]
    ensures b.NoFile? ==> RunEnds(files, hi)
  {
    if b.SomeFile? {
      var j :| 0 <= j < |files| && files[j] == b.file;
      assert hi <= j by { assert files[hi - 1].RangeOk() && files[j].RangeOk(); }
      assert hi < j ==> Lt(files[hi].smallest, files[j].smallest) by { assert files[hi].RangeOk(); }
    }
  }

  lemma NoBoundaryLevel0(files: seq<File>, chosen: seq<File>, largest: IKey, b: FileOpt)
    requires RangesOk(files) && Apart(files, chosen) && SmallestBoundary(files, largest, b)
    requires exists i :: 0 <= i < |chosen| && chosen[i].largest == largest
    requires forall i :: 0 <= i < |chosen| ==> !Lt(largest, chosen[i].largest)
    ensures b.NoFile?
  {
    if b.SomeFile? {
      var i :| 0 <= i < |chosen| && chosen[i].largest == largest;
      assert chosen[i] in files && chosen[i] in chosen;
      assert b.file.RangeOk() && chosen[i].RangeOk();
      assert Touch(b.file, chosen[i]);
    }
  }

  /** Every file added starts at the user key the one before it ends with. */
  ghost predicate Extends(level: nat, chosen: seq<File>, r: seq<File>) {
    && chosen <= r && (level == 0 ==> r == chosen)
    && forall i :: 0 < |chosen| <= i < |r| ==> r[i].smallest.user == r[i - 1].largest.user
  }

  /** The boundary search: the files taken so far and their largest key. */
  ghost predicate Growing(files: seq<File>, level: nat, chosen: seq<File>, r: seq<File>, largest: IKey, lo: nat, hi: nat) {
    if level == 0 then
      && r == chosen
      && (exists i :: 0 <= i < |chosen| && chosen[i].largest == largest)
      && (forall i :: 0 <= i < |chosen| ==> !Lt(largest, chosen[i].largest))
    else
      IsRun(files, lo, hi, r) && Extends(level, chosen, r) && largest == files[hi - 1].largest
  }

  lemma GrowStep(files: seq<File>, level: nat, chosen: seq<File>, r: seq<File>, largest: IKey, lo: nat, hi: nat, b: FileOpt)
    requires Seed(files, level, chosen) && Growing(files, level, chosen, r, largest, lo, hi)
    requires SmallestBoundary(files, largest, b)
    ensures b.NoFile? ==> SafeRun(files, level, r) && Extends(level, chosen, r)
    ensures b.SomeFile? ==> hi < |files|
    ensures b.SomeFile? ==> Growing(files, level, chosen, r + [b.file], b.file.largest, lo, hi + 1)
  {
    if level == 0 {
      NoBoundaryLevel0(files, chosen, largest, b);
    } else {
      BoundaryIsNext(files, hi, b);
    }
  }

  /** AddBoundaryInputs (db/version_set.cc:2072-2095). On a sorted level a run of
      files grows to the right until the next file starts at another user key; a
      closed choice of level-0 files has no boundary file. */
  method AddBoundaryInputs(files: seq<File>, ghost level: nat, chosen: seq<File>) returns (r: seq<File>)
    requires chosen == [] || Seed(files, level, chosen)
    ensures chosen == [] ==> r == []
    ensures chosen != [] ==> SafeRun(files, level, r) && Extends(level, chosen, r)
  {
    r := chosen;
    if chosen == [] { return; }
    var largest := FindLargestKey(chosen);
    ghost var lo: nat, hi: nat := 0, 0;
    if level > 0 {
      lo, hi :| IsRun(files, lo, hi, chosen);
      LargestIsLast(files, lo, hi, largest);
    }
    var searching := true;
    while searching
      invariant searching ==> Growing(files, level, chosen, r, largest, lo, hi)
      invariant !searching ==> SafeRun(files, level, r) && Extends(level, chosen, r)
      decreases searching, |files| - hi
    {
      var b := FindSmallestBoundaryFile(files, largest);
      GrowStep(files, level, chosen, r, largest, lo, hi, b);
      if b.SomeFile? {
        r := r + [b.file];
        largest := b.file.largest;
        hi := hi + 1;
      } else {
        searching := false;
      }
    }
  }

  // ----- nothing older is left behind -----

  lemma AfterRun(files: seq<File>, hi: nat, i: nat, j: nat)
    requires SortedRanges(files) && j < hi <= i < |files| && RunEnds(files, hi)
    ensures files[j].largest.user < files[i].smallest.user
  {
    UserRanges(files, hi - 1, hi);
    if j < hi - 1 { UserRanges(files, j, hi - 1); }
    if hi < i { UserRanges(files, hi, i); }
  }

  lemma LeftOutSorted(files: seq<File>, lo: nat, hi: nat, i: nat, j: nat)
    requires SortedLevel(files) && lo < hi <= |files| && RunEnds(files, hi)
    requires i < |files| && lo <= j < hi && !(lo <= i < hi)
    ensures Newer(files[i], files[j])
  {
    forall e, h | e in files[i].entries && h in files[j].entries && e.ik.user == h.ik.user
      ensures e.ik.sn > h.ik.sn
    {
      EntryBounds(files[i], e);
      EntryBounds(files[j], h);
      if hi <= i { AfterRun(files, hi, i, j); }
    }
  }

  lemma LeftOutLevel0(files: seq<File>, chosen: seq<File>, f: File, g: File)
    requires AllValid(files) && Apart(files, chosen)
    requires f in files && f !in chosen && g in chosen
    ensures Newer(f, g)
  {
    forall e, h | e in f.entries && h in g.entries ensures e.ik.user != h.ik.user {
      assert g in files;
      EntryBounds(f, e);
      EntryBounds(g, h);
    }
  }

  lemma LeftOutOfRun(files: seq<File>, lo: nat, hi: nat, f: File, g: File)
    requires SortedLevel(files) && lo < hi <= |files| && RunEnds(files, hi)
    requires f in files && f !in files[lo..hi] && g in files[lo..hi]
    ensures Newer(f, g)
  {
    var i :| 0 <= i < |files| && files[i] == f;
    var j :| lo <= j < hi && files[j] == g;
    LeftOutSorted(files, lo, hi, i, j);
  }

  /** No file left behind at the level holds an older version of a chosen key. */
  lemma SafeRunNewer(files: seq<File>, level: nat, chosen: seq<File>)
    requires AllValid(files) && SafeRun(files, level, chosen)
    ensures forall f, g :: f in files && f !in chosen && g in chosen ==> Newer(f, g)
  {
    forall f, g | f in files && f !in chosen && g in chosen ensures Newer(f, g) {
      if level == 0 {
        LeftOutLevel0(files, chosen, f, g);
      } else {
        var lo: nat, hi: nat :| IsRun(files, lo, hi, chosen) && RunEnds(files, hi);
        LeftOutOfRun(files, lo, hi, f, g);
      }
    }
  }

  // ----- ranges -----

  /** The smallest and the largest key of the files. */
  ghost predicate IsRange(files: seq<File>, smallest: IKey, largest: IKey) {
    && (exists i :: 0 <= i < |files| && files[i].smallest == smallest)
    && (exists i :: 0 <= i < |files| && files[i].largest == largest)
    && (forall i :: 0 <= i < |files| ==> !Lt(files[i].smallest, smallest) && !Lt(largest, files[i].largest))
  }

  method GetRange(files: seq<File>) returns (smallest: IKey, largest: IKey)
    requires files != []
    ensures IsRange(files, smallest, largest)
  {
    smallest, largest := files[0].smallest, files[0].largest;
    for i := 1 to |files|
      invariant exists j :: 0 <= j < |files| && files[j].smallest == smallest
      invariant exists j :: 0 <= j < |files| && files[j].largest == largest
      invariant forall j :: 0 <= j < i ==> !Lt(files[j].smallest, smallest) && !Lt(largest, files[j].largest)
    {
      if Lt(files[i].smallest, smallest) { smallest := files[i].smallest; }
      if Lt(largest, files[i].largest) { largest := files[i].largest; }
    }
  }

  /** Overlap with a user-key range picks consecutive files of a sorted level. */
  lemma FilterIsRun(files: seq<File>, begin: Bound, end: Bound) returns (lo: nat, hi: nat)
    requires SortedRanges(files)
    ensures lo <= hi <= |files| && Filter(files, begin, end) == files[lo..hi]
    ensures forall i :: 0 <= i < |files| ==> (Overlaps(files[i], begin, end) <==> lo <= i < hi)
    ensures forall i :: 0 <= i < lo ==> AfterFile(begin, files[i])
    ensures forall i :: hi <= i < |files| ==> BeforeFile(end, files[i])
  {
    lo := 0;
    while lo < |files| && AfterFile(begin, files[lo])
      invariant lo <= |files|
      invariant forall i :: 0 <= i < lo ==> AfterFile(begin, files[i])
    {
      lo := lo + 1;
    }
    hi := lo;
    while hi < |files| && !BeforeFile(end, files[hi])
      invariant lo <= hi <= |files|
      invariant forall i :: lo <= i < hi ==> !BeforeFile(end, files[i])
    {
      hi := hi + 1;
    }
    forall i | hi <= i < |files| ensures BeforeFile(end, files[i]) {
      if hi < i { UserRanges(files, hi, i); }
    }
    forall i | lo <= i < |files| ensures !AfterFile(begin, files[i]) {
      if lo < i { UserRanges(files, lo, i); }
    }
    FilterSlice(files, begin, end, lo, hi, |files|);
  }

  function Min(a: nat, b: nat): nat { if a < b then a else b }

  lemma {:induction false} FilterSlice(files: seq<File>, begin: Bound, end: Bound, lo: nat, hi: nat, n: nat)
    requires lo <= hi <= |files| && n <= |files|
    requires forall i :: 0 <= i < |files| ==> (Overlaps(files[i], begin, end) <==> lo <= i < hi)
    ensures FilterTo(files, n, begin, end) == files[Min(lo, n)..Min(hi, n)]
  {
    if n > 0 {
      FilterSlice(files, begin, end, lo, hi, n - 1);
      if lo <= n - 1 < hi { assert files[lo..n] == files[lo..n - 1] + [files[n - 1]]; }
    }
  }

  // ----- SetupOtherInputs -----

  /** A run [lo, hi) of the next level that has all the files reaching into the user-key
      range of the first list. */
  ghost predicate Meets(files1: seq<File>, in0: seq<File>, in1: seq<File>, lo: nat, hi: nat) {
    && lo <= hi <= |files1| && in1 == files1[lo..hi]
    && (forall i, j :: 0 <= i < lo && 0 <= j < |in0| ==> files1[i].largest.user < in0[j].smallest.user)
    && (forall i, j :: hi <= i < |files1| && 0 <= j < |in0| ==> in0[j].largest.user < files1[i].smallest.user)
  }

  ghost predicate MeetsRun(files1: seq<File>, in0: seq<File>, in1: seq<File>) {
    exists lo, hi :: Meets(files1, in0, in1, lo, hi)
  }

  /** The two input lists of a compaction from `level` into `level + 1`. */
  ghost predicate GoodInputs(v: Version, level: nat, in0: seq<File>, in1: seq<File>) {
    && level + 1 < |v.levels|
    && SafeRun(v.levels[level], level, in0)
    && MeetsRun(v.levels[level + 1], in0, in1)
  }

  function TotalFileSize(fs: seq<File>): nat {
    if fs == [] then 0 else TotalFileSize(fs[..|fs| - 1]) + fs[|fs| - 1].size
  }

  /** Exactly the files of the next level that reach into the user-key range of in0. */
  ghost predicate NextTo(files1: seq<File>, in0: seq<File>, in1: seq<File>) {
    exists smallest, largest :: IsRange(in0, smallest, largest) && in1 == Filter(files1, At(smallest.user), At(largest.user))
  }

  method NextLevelInputs(files1: seq<File>, level: nat, in0: seq<File>) returns (in1: seq<File>)
    requires SortedRanges(files1) && in0 != []
    ensures MeetsRun(files1, in0, in1) && NextTo(files1, in0, in1)
  {
    var smallest, largest := GetRange(in0);
    in1 := GetOverlappingInputs(files1, level + 1, At(smallest.user), At(largest.user));
    ghost var lo, hi := FilterIsRun(files1, At(smallest.user), At(largest.user));
    assert Meets(files1, in0, in1, lo, hi);
  }

  /** A longer list meets as many files only if it meets the same ones. */
  lemma SameCountSameFiles(files1: seq<File>, in0: seq<File>, in1: seq<File>, wide0: seq<File>, wide1: seq<File>)
    requires SortedRanges(files1) && NextTo(files1, in0, in1) && NextTo(files1, wide0, wide1)
    requires in1 != [] && forall f :: f in in0 ==> f in wide0
    ensures |wide1| == |in1| <==> wide1 == in1
  {
    var s, l :| IsRange(in0, s, l) && in1 == Filter(files1, At(s.user), At(l.user));
    var s', l' :| IsRange(wide0, s', l') && wide1 == Filter(files1, At(s'.user), At(l'.user));
    WiderRange(in0, s, l, wide0, s', l');
    WiderFilter(files1, s.user, l.user, s'.user, l'.user);
  }

  lemma WiderFilter(files: seq<File>, b: UserKey, e: UserKey, b': UserKey, e': UserKey)
    requires SortedRanges(files) && b' <= b && e <= e' && Filter(files, At(b), At(e)) != []
    ensures |Filter(files, At(b'), At(e'))| == |Filter(files, At(b), At(e))|
            <==> Filter(files, At(b'), At(e')) == Filter(files, At(b), At(e))
  {
    var lo, hi := FilterIsRun(files, At(b), At(e));
    var lo', hi' := FilterIsRun(files, At(b'), At(e'));
    assert Overlaps(files[lo], At(b'), At(e')) && Overlaps(files[hi - 1], At(b'), At(e'));
  }

  lemma WiderRange(in0: seq<File>, s: IKey, l: IKey, wide0: seq<File>, s': IKey, l': IKey)
    requires IsRange(in0, s, l) && IsRange(wide0, s', l') && forall f :: f in in0 ==> f in wide0
    ensures s'.user <= s.user && l.user <= l'.user
  {
    var i :| 0 <= i < |in0| && in0[i].smallest == s;
    assert in0[i] in in0;
    var j :| 0 <= j < |in0| && in0[j].largest == l;
    assert in0[j] in in0;
  }

  lemma RangeOverlaps(in0: seq<File>, in1: seq<File>, start: IKey, limit: IKey)
    requires RangesOk(in0) && IsRange(in0 + in1, start, limit)
    ensures forall f :: f in in0 ==> Overlaps(f, At(start.user), At(limit.user))
  {
    forall f | f in in0 ensures Overlaps(f, At(start.user), At(limit.user)) {
      var i :| 0 <= i < |in0| && in0[i] == f;
      assert (in0 + in1)[i] == f;
      assert f.RangeOk();
    }
  }

  /** The files of the level that overlap the range of fs, with their boundary files. */
  ghost predicate Widened(files0: seq<File>, level: nat, fs: seq<File>, wide: seq<File>) {
    exists start, limit, base :: IsRange(fs, start, limit) && Extends(level, base, wide) &&
      if level == 0 then LeastChoice(files0, At(start.user), At(limit.user), base)
      else base == Filter(files0, At(start.user), At(limit.user))
  }

  /** The attempt to take more files at `level` for the range of both lists. */
  method ExpandedInputs(files0: seq<File>, level: nat, in0: seq<File>, in1: seq<File>) returns (expanded0: seq<File>)
    requires SafeRun(files0, level, in0)
    ensures SafeRun(files0, level, expanded0) && Widened(files0, level, in0 + in1, expanded0)
    ensures forall f :: f in in0 ==> f in expanded0
  {
    var start, limit := GetRange(in0 + in1);
    expanded0 := GetOverlappingInputs(files0, level, At(start.user), At(limit.user));
    ChosenMembers(files0, level, in0);
    RangeOverlaps(in0, in1, start, limit);
    assert in0[0] in in0;
    if level > 0 {
      ghost var lo, hi := FilterIsRun(files0, At(start.user), At(limit.user));
      FilterMembers(files0, |files0|, At(start.user), At(limit.user));
      assert files0[..|files0|] == files0;
      assert in0[0] in expanded0;
      assert IsRun(files0, lo, hi, expanded0);
    }
    var base := expanded0;
    expanded0 := AddBoundaryInputs(files0, level, base);
    assert Extends(level, base, expanded0);
  }

  /** The files two levels down under the compaction, and the key the next compaction of
      the level starts after. */
  method Surroundings(v: Version, level: nat, in0: seq<File>, in1: seq<File>) returns (grandparents: seq<File>, pointer: IKey)
    requires WellFormed(v) && level < NUM_LEVELS && in0 != []
    ensures Under(v, level, in0 + in1, grandparents)
    ensures exists smallest :: IsRange(in0, smallest, pointer)
  {
    var start, limit := GetRange(in0 + in1);
    grandparents := [];
    if level + 2 < NUM_LEVELS {
      assert SortedLevel(v.levels[level + 2]);
      grandparents := GetOverlappingInputs(v.levels[level + 2], level + 2, At(start.user), At(limit.user));
    }
    var smallest;
    smallest, pointer := GetRange(in0);
  }

  /** The files at level + 2 that overlap the range of fs. */
  ghost predicate Under(v: Version, level: nat, fs: seq<File>, grandparents: seq<File>)
    requires |v.levels| == NUM_LEVELS
  {
    exists start, limit :: IsRange(fs, start, limit) &&
      grandparents == if level + 2 < NUM_LEVELS then Filter(v.levels[level + 2], At(start.user), At(limit.user)) else []
  }

  /** The wider list is taken if it is longer, the whole stays below the limit and it meets
      the same files of the next level. */
  ghost predicate Expands(files0: seq<File>, files1: seq<File>, level: nat, byteLimit: nat,
                          first: seq<File>, in1: seq<File>, wide: seq<File>, in0: seq<File>) {
    && SafeRun(files0, level, wide) && Widened(files0, level, first + in1, wide)
    && in0 == if |wide| > |first| && TotalFileSize(in1) + TotalFileSize(wide) < byteLimit && NextTo(files1, wide, in1)
              then wide else first
  }

  /** `first` is the seed with its boundary files, in1 what it meets on the next level. */
  ghost predicate SetUp(files0: seq<File>, files1: seq<File>, level: nat, seed: seq<File>, byteLimit: nat,
                        in0: seq<File>, in1: seq<File>, first: seq<File>, wide: seq<File>) {
    && SafeRun(files0, level, first) && Extends(level, seed, first) && NextTo(files1, first, in1)
    && if in1 == [] then in0 == first else Expands(files0, files1, level, byteLimit, first, in1, wide, in0)
  }

  ghost predicate Chosen(files0: seq<File>, files1: seq<File>, level: nat, seed: seq<File>, byteLimit: nat,
                         in0: seq<File>, in1: seq<File>) {
    exists first, wide :: SetUp(files0, files1, level, seed, byteLimit, in0, in1, first, wide)
  }

  /** SetupOtherInputs (db/version_set.cc:2097-2156): whatever seed the picker gave,
      the two lists are safe to merge. */
  method SetupOtherInputs(v: Version, level: nat, seed: seq<File>, byteLimit: nat)
    returns (in0: seq<File>, in1: seq<File>, grandparents: seq<File>, pointer: IKey)
    requires WellFormed(v) && level + 1 < NUM_LEVELS && Seed(v.levels[level], level, seed)
    ensures GoodInputs(v, level, in0, in1) && NextTo(v.levels[level + 1], in0, in1)
    ensures forall f :: f in seed ==> f in in0
    ensures Chosen(v.levels[level], v.levels[level + 1], level, seed, byteLimit, in0, in1)
    ensures Under(v, level, in0 + in1, grandparents)
    ensures exists smallest :: IsRange(in0, smallest, pointer)
  {
    ghost var first, wide;
    in0, in1, first, wide := BothInputs(v.levels[level], v.levels[level + 1], level, seed, byteLimit);
    grandparents, pointer := Surroundings(v, level, in0, in1);
  }

  method BothInputs(files0: seq<File>, files1: seq<File>, level: nat, seed: seq<File>, byteLimit: nat)
    returns (in0: seq<File>, in1: seq<File>, ghost first: seq<File>, ghost wide: seq<File>)
    requires SortedRanges(files1) && Seed(files0, level, seed)
    ensures SafeRun(files0, level, in0) && MeetsRun(files1, in0, in1) && NextTo(files1, in0, in1)
    ensures forall f :: f in seed ==> f in in0
    ensures SetUp(files0, files1, level, seed, byteLimit, in0, in1, first, wide)
  {
    in0 := AddBoundaryInputs(files0, level, seed);
    in1 := NextLevelInputs(files1, level, in0);
    first, wide := in0, in0;
    if in1 != [] { in0, wide := Expand(files0, files1, level, in0, in1, byteLimit); }
  }

  /** More files of the level, if that costs none of the next one. */
  method Expand(files0: seq<File>, files1: seq<File>, level: nat, first: seq<File>, in1: seq<File>, byteLimit: nat)
    returns (in0: seq<File>, ghost wide: seq<File>)
    requires SortedRanges(files1) && SafeRun(files0, level, first) && in1 != []
    requires MeetsRun(files1, first, in1) && NextTo(files1, first, in1)
    ensures SafeRun(files0, level, in0) && MeetsRun(files1, in0, in1) && NextTo(files1, in0, in1)
    ensures forall f :: f in first ==> f in in0
    ensures Expands(files0, files1, level, byteLimit, first, in1, wide, in0)
  {
    in0 := first;
    var expanded0 := ExpandedInputs(files0, level, first, in1);
    wide := expanded0;
    if |expanded0| > |first| && TotalFileSize(in1) + TotalFileSize(expanded0) < byteLimit {
      var expanded1 := NextLevelInputs(files1, level, expanded0);
      SameCountSameFiles(files1, first, in1, expanded0, expanded1);
      OneNext(files1, expanded0, in1, expanded1);
      if |expanded1| == |in1| { in0 := expanded0; }
    }
  }

  lemma OneNext(files1: seq<File>, in0: seq<File>, in1: seq<File>, in1': seq<File>)
    requires NextTo(files1, in0, in1')
    ensures NextTo(files1, in0, in1) <==> in1 == in1'
  {
    if NextTo(files1, in0, in1) {
      var s, l :| IsRange(in0, s, l) && in1 == Filter(files1, At(s.user), At(l.user));
      var s', l' :| IsRange(in0, s', l') && in1' == Filter(files1, At(s'.user), At(l'.user));
      WiderRange(in0, s, l, in0, s', l');
      WiderRange(in0, s', l', in0, s, l);
    }
  }
}
