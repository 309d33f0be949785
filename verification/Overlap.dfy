/** Range overlap and level-0 input closure (db/version_set.cc:129-164, 804-844). */
module Overlap {
  import opened InternalKeys
  import opened Versions

  datatype Bound = Unbounded | At(key: UserKey)

  predicate AfterFile(b: Bound, f: File) {
    b.At? && b.key > f.largest.user
  }

  predicate BeforeFile(b: Bound, f: File) {
    b.At? && b.key < f.smallest.user
  }

  predicate Overlaps(f: File, begin: Bound, end: Bound) {
    !AfterFile(begin, f) && !BeforeFile(end, f)
  }

  ghost predicate RangesOk(fs: seq<File>) {
    forall i :: 0 <= i < |fs| ==> fs[i].RangeOk()
  }

  lemma UserRanges(fs: seq<File>, i: nat, j: nat)
    requires SortedRanges(fs) && i < j < |fs|
    ensures fs[i].largest.user <= fs[j].smallest.user
    ensures fs[i].smallest.user <= fs[j].smallest.user
    ensures fs[i].largest.user <= fs[j].largest.user
  {
    assert fs[i].RangeOk() && fs[j].RangeOk();
  }

  // ----- SomeFileOverlapsRange -----

  /** The linear scan over possibly overlapping files and the binary search over a
      sorted level decide the same question. */
  method SomeFileOverlapsRange(disjointSorted: bool, files: seq<File>, smallest: Bound, largest: Bound)
    returns (r: bool)
    requires RangesOk(files)
    requires disjointSorted ==> SortedRanges(files)
    requires disjointSorted ==> forall f :: f in files ==> f.largest.sn <= MAX_SEQUENCE
    ensures r <==> exists f :: f in files && Overlaps(f, smallest, largest)
  {
    if !disjointSorted {
      for i := 0 to |files|
        invariant forall j :: 0 <= j < i ==> !Overlaps(files[j], smallest, largest)
      {
        assert files[i] in files;
        if !(AfterFile(smallest, files[i]) || BeforeFile(largest, files[i])) { return true; }
      }
      return false;
    }
    var index := 0;
    if smallest.At? {
      index := FindFile(files, IKey(smallest.key, MAX_SEQUENCE));
    }
    FirstCandidate(files, smallest, largest, index);
    if index >= |files| { return false; }
    return !BeforeFile(largest, files[index]);
  }

  lemma FirstCandidate(files: seq<File>, smallest: Bound, largest: Bound, index: nat)
    requires SortedRanges(files) && index <= |files|
    requires forall f :: f in files ==> f.largest.sn <= MAX_SEQUENCE
    requires smallest.Unbounded? ==> index == 0
    requires smallest.At? ==> forall i :: 0 <= i < index ==> Lt(files[i].largest, IKey(smallest.key, MAX_SEQUENCE))
    requires smallest.At? ==> forall i :: index <= i < |files| ==> !Lt(files[i].largest, IKey(smallest.key, MAX_SEQUENCE))
    ensures (exists f :: f in files && Overlaps(f, smallest, largest))
            <==> index < |files| && !BeforeFile(largest, files[index])
  {
    forall i | 0 <= i < |files| ensures AfterFile(smallest, files[i]) <==> i < index {
      assert files[i] in files;
    }
    if index < |files| {
      assert files[index] in files;
      forall i | index < i < |files| && Overlaps(files[i], smallest, largest)
        ensures !BeforeFile(largest, files[index])
      {
        UserRanges(files, index, i);
      }
    }
  }

  // ----- GetOverlappingInputs -----

  /** The first n files, restricted to those overlapping the range */
  function FilterTo(files: seq<File>, n: nat, begin: Bound, end: Bound): (r: seq<File>)
    requires n <= |files|
  {
    if n == 0 then []
    else FilterTo(files, n - 1, begin, end) + if Overlaps(files[n - 1], begin, end) then [files[n - 1]] else []
  }

  function Filter(files: seq<File>, begin: Bound, end: Bound): (r: seq<File>) {
    FilterTo(files, |files|, begin, end)
  }

  lemma {:induction false} FilterMembers(files: seq<File>, n: nat, begin: Bound, end: Bound)
    requires n <= |files|
    ensures forall f :: f in FilterTo(files, n, begin, end) <==> f in files[..n] && Overlaps(f, begin, end)
  {
    if n > 0 {
      FilterMembers(files, n - 1, begin, end);
      assert files[..n] == files[..n - 1] + [files[n - 1]];
    }
  }

  predicate Touch(f: File, g: File) {
    f.smallest.user <= g.largest.user && g.smallest.user <= f.largest.user
  }

  /** A choice of files that holds everything overlapping the request and leaves
      no file out that overlaps a chosen one. */
  ghost predicate ClosedChoice(files: seq<File>, begin: Bound, end: Bound, chosen: set<File>) {
    && (forall f :: f in files && Overlaps(f, begin, end) ==> f in chosen)
    && (forall f, g :: f in files && g in files && f in chosen && Touch(f, g) ==> g in chosen)
  }

  /** Every closed choice for the request holds all files overlapping [b, e]. */
  ghost predicate Forced(files: seq<File>, begin: Bound, end: Bound, b: Bound, e: Bound) {
    forall chosen, f :: ClosedChoice(files, begin, end, chosen) && f in files && Overlaps(f, b, e) ==> f in chosen
  }

  lemma ForcedDown(files: seq<File>, begin: Bound, end: Bound, b: Bound, e: Bound, f: File)
    requires RangesOk(files) && Forced(files, begin, end, b, e)
    requires f in files && Overlaps(f, b, e) && b.At? && f.smallest.user < b.key
    ensures Forced(files, begin, end, At(f.smallest.user), e)
  {
    forall chosen, g | ClosedChoice(files, begin, end, chosen) && g in files && Overlaps(g, At(f.smallest.user), e)
      ensures g in chosen
    {
      assert g.RangeOk();
      assert f in chosen;
      if !Overlaps(g, b, e) { assert Touch(f, g); }
    }
  }

  lemma ForcedUp(files: seq<File>, begin: Bound, end: Bound, b: Bound, e: Bound, f: File)
    requires RangesOk(files) && Forced(files, begin, end, b, e)
    requires f in files && Overlaps(f, b, e) && e.At? && f.largest.user > e.key
    ensures Forced(files, begin, end, b, At(f.largest.user))
  {
    forall chosen, g | ClosedChoice(files, begin, end, chosen) && g in files && Overlaps(g, b, At(f.largest.user))
      ensures g in chosen
    {
      assert g.RangeOk();
      assert f in chosen;
      if !Overlaps(g, b, e) { assert Touch(f, g); }
    }
  }

  /** How many files stick out of the current range: what a restart uses up. */
  ghost function Outside(files: seq<File>, b: Bound, e: Bound): nat {
    if files == [] then 0
    else
      var n := |files| - 1;
      Outside(files[..n], b, e)
      + (if b.At? && files[n].smallest.user < b.key then 1 else 0)
      + (if e.At? && files[n].largest.user > e.key then 1 else 0)
  }

  ghost predicate Wider(b: Bound, e: Bound, b': Bound, e': Bound) {
    && b.At? == b'.At? && e.At? == e'.At?
    && (b.At? ==> b'.key <= b.key) && (e.At? ==> e.key <= e'.key)
  }

  lemma {:induction false} OutsideShrinks(files: seq<File>, b: Bound, e: Bound, b': Bound, e': Bound)
    requires RangesOk(files) && Wider(b, e, b', e')
    ensures Outside(files, b', e') <= Outside(files, b, e)
    ensures (exists f :: f in files &&
                (|| (b.At? && b'.key <= f.smallest.user < b.key)
                 || (e.At? && e.key < f.largest.user <= e'.key)))
            ==> Outside(files, b', e') < Outside(files, b, e)
  {
    if files != [] {
      var n := |files| - 1;
      assert files == files[..n] + [files[n]];
      OutsideShrinks(files[..n], b, e, b', e');
    }
  }

  ghost predicate Inside(fs: seq<File>, b: Bound, e: Bound) {
    forall j :: 0 <= j < |fs| ==>
      (b.At? ==> b.key <= fs[j].smallest.user) && (e.At? ==> fs[j].largest.user <= e.key)
  }

  /** The smallest closed choice, in the order of the level. */
  ghost predicate LeastChoice(files: seq<File>, begin: Bound, end: Bound, inputs: seq<File>) {
    && ClosedChoice(files, begin, end, set f | f in inputs)
    && (forall chosen :: ClosedChoice(files, begin, end, chosen) ==> (set f | f in inputs) <= chosen)
    && exists b, e :: Wider(begin, end, b, e) && inputs == Filter(files, b, e)
  }

  lemma LeastClosed(files: seq<File>, begin: Bound, end: Bound, b: Bound, e: Bound, inputs: seq<File>)
    requires RangesOk(files) && inputs == Filter(files, b, e)
    requires Wider(begin, end, b, e) && Forced(files, begin, end, b, e) && Inside(inputs, b, e)
    ensures LeastChoice(files, begin, end, inputs)
  {
    FilterMembers(files, |files|, b, e);
    assert files[..|files|] == files;
    assert forall f :: f in inputs ==> exists i :: 0 <= i < |inputs| && inputs[i] == f;
  }

  /** Version::GetOverlappingInputs. On level 0 the scan restarts whenever a chosen
      file widens the range; it terminates, and returns the least closed choice. */
  method GetOverlappingInputs(files: seq<File>, level: nat, begin: Bound, end: Bound) returns (inputs: seq<File>)
    requires RangesOk(files)
    ensures forall f :: f in inputs ==> f in files
    ensures level > 0 ==> inputs == Filter(files, begin, end)
    ensures level == 0 ==> LeastChoice(files, begin, end, inputs)
  {
    var b, e := begin, end;
    inputs := [];
    var i := 0;
    while i < |files|
      invariant 0 <= i <= |files|
      invariant inputs == FilterTo(files, i, b, e)
      invariant Wider(begin, end, b, e)
      invariant level > 0 ==> b == begin && e == end
      invariant level == 0 ==> Forced(files, begin, end, b, e) && Inside(inputs, b, e)
      decreases Outside(files, b, e), |files| - i
    {
      var f := files[i];
      i := i + 1;
      if b.At? && f.largest.user < b.key {
      } else if e.At? && f.smallest.user > e.key {
      } else {
        inputs := inputs + [f];
        if level == 0 {
          if b.At? && f.smallest.user < b.key {
            ForcedDown(files, begin, end, b, e, f);
            OutsideShrinks(files, b, e, At(f.smallest.user), e);
            b := At(f.smallest.user);
            inputs := [];
            i := 0;
          } else if e.At? && f.largest.user > e.key {
            ForcedUp(files, begin, end, b, e, f);
            OutsideShrinks(files, b, e, b, At(f.largest.user));
            e := At(f.largest.user);
            inputs := [];
            i := 0;
          }
        }
      }
    }
    FilterMembers(files, |files|, b, e);
    if level == 0 { LeastClosed(files, begin, end, b, e, inputs); }
  }
}
