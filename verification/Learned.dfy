/** Looking a key up through a learned model: the position window, the file it falls in
    and the block read (mod/learned_index.cpp, db/table_cache.cc). */
module Learned {
  import opened Plr
  import opened PlrTrain

  function Ceil(r: real): int {
    -((-r).Floor)
  }

  function Clamp(c: int, size: nat): nat
    requires size > 0
  {
    if c < 0 then 0 else if c < size then c else size - 1
  }

  /** The positions within `error` of what the segment's line says for t. */
  function Window(seg: Segment, t: nat, error: real, size: nat): (nat, nat)
    requires size > 0
  {
    var result := At(LineOf(seg), t as real);
    (if result - error > 0.0 then (result - error).Floor else 0, Clamp(Ceil(result + error), size))
  }

  lemma WindowHolds(seg: Segment, t: nat, error: real, size: nat, i: nat)
    requires i < size && -error <= At(LineOf(seg), t as real) - i as real <= error
    ensures var w := Window(seg, t, error, size);
            w.0 <= i <= w.1 < size && (w.1 - w.0) as real <= 2.0 * error + 2.0
  {
    var result := At(LineOf(seg), t as real);
    assert (result - error).Floor as real <= result - error;
    assert Ceil(result + error) as real >= result + error;
  }

  /** left is the last segment, the sentinel aside, that starts at or before target. */
  ghost predicate Located(segs: seq<Segment>, target: nat, left: int) {
    && 0 <= left && left + 1 < |segs|
    && (left == 0 || segs[left].x <= target)
    && (left + 2 == |segs| || target < segs[left + 1].x)
  }

  /** A target past the end of its segment is looked up at the start of the next. */
  function WindowAt(segs: seq<Segment>, target: nat, at: nat, error: real, size: nat): (nat, nat)
    requires at + 1 < |segs| && size > 0
  {
    if target > segs[at].x2 then Window(segs[at + 1], segs[at + 1].x, error, size) else Window(segs[at], target, error, size)
  }

  /** The search among the segments, for any model. */
  method Predict(segs: seq<Segment>, target: nat, error: real, size: nat) returns (lower: nat, upper: nat)
    requires |segs| > 1 && size > 0
    ensures exists at :: Located(segs, target, at) && (lower, upper) == WindowAt(segs, target, at, error, size)
  {
    var left, right := 0, |segs| - 1;
    while left != right - 1
      invariant 0 <= left < right < |segs|
      invariant left == 0 || segs[left].x <= target
      invariant right + 1 == |segs| || target < segs[right].x
      decreases right - left
    {
      var mid := (right + left) / 2;
      if target < segs[mid].x { right := mid; } else { left := mid; }
    }
    ghost var at := left;
    var t := target;
    if t > segs[left].x2 {
      left := left + 1;
      t := segs[left].x;
    }
    var w := Window(segs[left], t, error, size);
    lower, upper := w.0, w.1;
    assert Located(segs, target, at) && (lower, upper) == WindowAt(segs, target, at, error, size);
  }

  /** The segments of a successful training, and a sentinel at the last key. */
  ghost predicate Trained(keys: seq<nat>, segs: seq<Segment>, starts: seq<nat>, error: real) {
    && Ascending(keys) && |segs| > 1 && Cover(keys, segs[..|segs| - 1], starts, |keys|, error)
  }

  lemma SegmentAt(keys: seq<nat>, segs: seq<Segment>, starts: seq<nat>, error: real, j: nat)
    requires Trained(keys, segs, starts, error) && j + 1 < |segs|
    ensures |starts| == |segs| && SegmentCovers(keys, segs[j], starts[j], starts[j + 1], error)
  {
    assert segs[..|segs| - 1][j] == segs[j];
  }

  /** The segment found is the one that covers the key, and the key is not past its end. */
  lemma LocatedCovers(keys: seq<nat>, segs: seq<Segment>, starts: seq<nat>, error: real, left: nat, i: nat)
    requires Trained(keys, segs, starts, error) && i < |keys| && Located(segs, keys[i], left)
    ensures |starts| == |segs| && starts[left] <= i < starts[left + 1] && keys[i] <= segs[left].x2
    ensures SegmentCovers(keys, segs[left], starts[left], starts[left + 1], error)
  {
    SegmentAt(keys, segs, starts, error, left);
    if left + 2 < |segs| { SegmentAt(keys, segs, starts, error, left + 1); }
  }

  lemma CoveredIsNear(keys: seq<nat>, seg: Segment, lo: nat, hi: nat, error: real, i: nat)
    requires SegmentCovers(keys, seg, lo, hi, error) && lo <= i < hi
    ensures -error <= At(LineOf(seg), keys[i] as real) - i as real <= error
  {
    assert PointsOf(keys, lo, hi)[i - lo] == PointAt(keys, i);
  }

  /** A target that is no key falls to the segment of the key before it, which never ends
      before the target. */
  lemma AbsentLocated(keys: seq<nat>, segs: seq<Segment>, starts: seq<nat>, error: real, left: nat, target: nat, i: nat)
    requires Trained(keys, segs, starts, error) && Located(segs, target, left)
    requires 0 < i < |keys| && keys[i - 1] < target < keys[i]
    ensures |starts| == |segs| && starts[left] < i <= starts[left + 1] && target <= segs[left].x2
    ensures SegmentCovers(keys, segs[left], starts[left], starts[left + 1], error)
  {
    SegmentAt(keys, segs, starts, error, left);
    if left + 2 < |segs| { SegmentAt(keys, segs, starts, error, left + 1); }
  }

  lemma Interpolates(l: Line, a: real, t: real, b: real)
    requires a < t < b
    ensures (At(l, a) <= At(l, t) <= At(l, b)) || (At(l, b) <= At(l, t) <= At(l, a))
  {
    if l.a >= 0.0 {
      assert l.a * (t - a) >= 0.0 && l.a * (b - t) >= 0.0;
    } else {
      assert l.a * (t - a) <= 0.0 && l.a * (b - t) <= 0.0;
    }
  }

  lemma WindowTouches(seg: Segment, t: nat, error: real, size: nat, i: nat)
    requires 0 < i < size
    requires (i - 1) as real - error <= At(LineOf(seg), t as real) <= i as real + error
    ensures var w := Window(seg, t, error, size); w.0 <= i && i - 1 <= w.1
  {
    var result := At(LineOf(seg), t as real);
    assert (result - error).Floor as real <= result - error;
    assert Ceil(result + error) as real >= result + error;
  }

  /** Inside a segment the window of an absent key reaches one of its neighbours. */
  lemma AbsentIsNear(keys: seq<nat>, seg: Segment, lo: nat, hi: nat, error: real, target: nat, size: nat, i: nat)
    requires SegmentCovers(keys, seg, lo, hi, error) && lo < i < hi && size == |keys| && keys[i - 1] < target < keys[i]
    ensures var w := Window(seg, target, error, size); w.0 <= i && i - 1 <= w.1
  {
    CoveredIsNear(keys, seg, lo, hi, error, i - 1);
    CoveredIsNear(keys, seg, lo, hi, error, i);
    Interpolates(LineOf(seg), keys[i - 1] as real, target as real, keys[i] as real);
    WindowTouches(seg, target, error, size, i);
  }

  lemma PresentInWindow(keys: seq<nat>, segs: seq<Segment>, starts: seq<nat>, error: real, at: nat, target: nat, size: nat)
    requires Trained(keys, segs, starts, error) && Located(segs, target, at) && size == |keys| > 0
    ensures var w := WindowAt(segs, target, at, error, size);
            forall i :: 0 <= i < |keys| && keys[i] == target ==> w.0 <= i <= w.1 < size && (w.1 - w.0) as real <= 2.0 * error + 2.0
  {
    if i :| 0 <= i < |keys| && keys[i] == target {
      LocatedCovers(keys, segs, starts, error, at, i);
      CoveredIsNear(keys, segs[at], starts[at], starts[at + 1], error, i);
      WindowHolds(segs[at], target, error, size, i);
    }
  }

  lemma AbsentAtWindow(keys: seq<nat>, segs: seq<Segment>, starts: seq<nat>, error: real, at: nat, target: nat, size: nat)
    requires Trained(keys, segs, starts, error) && Located(segs, target, at) && size == |keys| > 0
    ensures var w := WindowAt(segs, target, at, error, size);
            forall i :: 0 < i < |keys| && keys[i - 1] < target < keys[i] && i !in starts ==> w.0 <= i && i - 1 <= w.1
  {
    forall i | 0 < i < |keys| && keys[i - 1] < target < keys[i] && i !in starts
      ensures var w := WindowAt(segs, target, at, error, size); w.0 <= i && i - 1 <= w.1
    {
      AbsentLocated(keys, segs, starts, error, at, target, i);
      AbsentIsNear(keys, segs[at], starts[at], starts[at + 1], error, target, size, i);
    }
  }

  class LearnedIndexData {
    const error: real
    var segments: seq<Segment>
    var minKey: nat
    var maxKey: nat
    var size: nat
    var learned: bool
    ghost var keys: seq<nat>
    ghost var starts: seq<nat>

    ghost predicate Valid()
      reads this
    {
      && error > 0.0
      && (learned ==>
            && Trained(keys, segments, starts, error) && keys != []
            && size == |keys| && minKey == keys[0] && maxKey == keys[|keys| - 1])
    }

    constructor (error: real)
      requires error > 0.0
      ensures Valid() && !learned && this.error == error
    {
      this.error, segments, minKey, maxKey, size, learned := error, [], 0, 0, 0, false;
      keys, starts := [], [];
    }

    /** Learns the keys of a file or of a level. It succeeds unless training gave way to
        a compaction or the only key is 0. */
    method Learn(stringKeys: seq<nat>, isLevel: bool, awaiting: nat -> bool) returns (ok: bool)
      requires Valid() && !learned && stringKeys != [] && Ascending(stringKeys)
      modifies this
      ensures Valid() && learned == ok && (ok ==> keys == stringKeys)
      ensures ok <==> stringKeys != [0] && !(isLevel && exists i :: 0 <= i < |stringKeys| && GivesWay(awaiting, i))
    {
      var last := stringKeys[|stringKeys| - 1];
      minKey, maxKey, size := stringKeys[0], last, |stringKeys|;
      var plr := new Trainer(error);
      var aborted;
      ghost var segs;
      ghost var cuts;
      aborted, segs, cuts := plr.Train(stringKeys, !isLevel, awaiting);
      if plr.segments == [] { return false; }
      segments := plr.segments + [Segment(last, 0.0, 0.0, 0)];
      assert segments[..|segments| - 1] == segs;
      learned, keys, starts := true, stringKeys, cuts;
      ok := true;
    }

    /** For every key the model was trained on, the window contains its position. */
    method GetPosition(target: nat) returns (lower: nat, upper: nat)
      requires Valid() && learned
      ensures target < minKey || target > maxKey ==> lower == size && upper == size
      ensures forall i :: 0 <= i < |keys| && keys[i] == target ==>
                lower <= i <= upper < size && (upper - lower) as real <= 2.0 * error + 2.0
      ensures forall i :: 0 < i < |keys| && keys[i - 1] < target < keys[i] && i !in starts ==> lower <= i && i - 1 <= upper
    {
      if target > maxKey { return size, size; }
      if target < minKey { return size, size; }
      lower, upper := Predict(segments, target, error, size);
      ghost var at :| Located(segments, target, at) && (lower, upper) == WindowAt(segments, target, at, error, size);
      PresentInWindow(keys, segments, starts, error, at, target, size);
      AbsentAtWindow(keys, segments, starts, error, at, target, size);
    }
  }

  // ----- from a level position to a file -----

  /** Per file, the number of entries up to and including it, and its largest key. */
  datatype FileEnd = FileEnd(total: nat, largest: nat)

  ghost predicate Accumulated(files: seq<FileEnd>) {
    && files != [] && files[0].total > 0
    && forall f, g :: 0 <= f < g < |files| ==> files[f].total < files[g].total
  }

  function Base(files: seq<FileEnd>, f: nat): nat
    requires f <= |files|
  {
    if f == 0 then 0 else files[f - 1].total
  }

  /** The files hold the keys of the level one after the other. */
  ghost predicate HoldLevel(files: seq<FileEnd>, keys: seq<nat>) {
    && Accumulated(files) && Ascending(keys) && files[|files| - 1].total == |keys|
    && forall f :: 0 <= f < |files| ==> files[f].total <= |keys| && files[f].largest == keys[files[f].total - 1]
  }

  /** The file with position i: exactly one. */
  ghost predicate FileOf(files: seq<FileEnd>, i: nat, f: nat) {
    f < |files| && Base(files, f) <= i < files[f].total
  }

  /** The key is at position i of the level, in file f, and the window has it. */
  ghost predicate Wanted(files: seq<FileEnd>, keys: seq<nat>, key: nat, lower: nat, upper: nat, i: nat, f: nat) {
    HoldLevel(files, keys) && i < |keys| && keys[i] == key && lower <= i <= upper && FileOf(files, i, f)
  }

  lemma NotYet(files: seq<FileEnd>, keys: seq<nat>, key: nat, lower: nat, upper: nat, i: nat, f: nat, left: nat)
    requires Accumulated(files) && Wanted(files, keys, key, lower, upper, i, f) && left <= f
    ensures key > files[left].largest ==> left < f
    ensures key <= files[left].largest ==> left == f
  {
    assert files[f].largest == keys[files[f].total - 1];
    if left < f {
      assert files[left].largest == keys[files[left].total - 1];
      assert files[left].total <= Base(files, f);
    }
  }

  /** The file with position lower, or the last one. */
  method FirstFile(files: seq<FileEnd>, lower: nat) returns (left: nat)
    requires Accumulated(files)
    ensures left < |files| && Base(files, left) <= lower && (left + 1 == |files| || lower < files[left].total)
  {
    left := 0;
    var right := |files| - 1;
    while left < right
      invariant 0 <= left <= right < |files|
      invariant Base(files, left) <= lower
      invariant right == |files| - 1 || lower < files[right].total
    {
      var mid := (left + right) / 2;
      if lower < files[mid].total { right := mid; } else { left := mid + 1; }
    }
  }

  /** Turns a window on the level into a file and a window in it. */
  method Search(files: seq<FileEnd>, key: nat, lower: nat, upper: nat, ghost keys: seq<nat>, ghost i: nat, ghost f: nat)
    returns (ok: bool, index: nat, relativeLower: nat, relativeUpper: int)
    requires Accumulated(files)
    ensures Wanted(files, keys, key, lower, upper, i, f) ==>
              && ok && index == f
              && relativeLower <= i - Base(files, f) <= relativeUpper < files[f].total - Base(files, f)
    ensures ok ==> relativeUpper - relativeLower <= upper - lower
  {
    index, relativeLower, relativeUpper := 0, 0, 0;
    var lo, up := lower, upper;
    var left := FirstFile(files, lower);
    ghost var wanted := Wanted(files, keys, key, lower, upper, i, f);
    assert wanted ==> left <= f;
    if up >= files[left].total {
      while true
        invariant left <= |files| && Base(files, left) <= lo && (left < |files| ==> lower <= lo)
        invariant left + 1 < |files| ==> lower < files[left].total
        invariant wanted ==> left <= f && lo <= i
        decreases |files| - left
      {
        if left >= |files| { return false, index, relativeLower, relativeUpper; }
        if wanted { NotYet(files, keys, key, lower, upper, i, f, left); }
        if key <= files[left].largest { break; }
        lo := files[left].total;
        left := left + 1;
      }
      if up > files[left].total - 1 { up := files[left].total - 1; }
    }
    index := left;
    relativeLower := if left > 0 then lo - files[left - 1].total else lo;
    relativeUpper := if left > 0 then up - files[left - 1].total else up;
    ok := true;
  }

  // ----- reading the entry -----

  function BlockOf(i: nat, B: nat): nat
    requires B > 0
  {
    i / B
  }

  function Start(b: nat, B: nat): nat { b * B }

  lemma Within(i: nat, B: nat)
    requires B > 0
    ensures Start(BlockOf(i, B), B) <= i < Start(BlockOf(i, B), B) + B
    ensures i == Start(BlockOf(i, B), B) + i % B
  {
  }

  lemma StartOrder(a: nat, b: nat, B: nat)
    requires a < b
    ensures Start(a, B) + B <= Start(b, B)
  {
    assert (b - a - 1) * B >= 0;
  }

  /** Position i is in block b when it lies between the block's ends. */
  lemma InBlock(i: nat, b: nat, B: nat)
    requires B > 0
    ensures BlockOf(i, B) == b <==> Start(b, B) <= i < Start(b, B) + B
  {
    Within(i, B);
    var c := BlockOf(i, B);
    if c < b { StartOrder(c, b, B); }
    if b < c { StartOrder(b, c, B); }
  }

  lemma BlockOrder(i: nat, j: nat, B: nat)
    requires B > 0 && i <= j
    ensures BlockOf(i, B) <= BlockOf(j, B)
  {
    Within(i, B);
    Within(j, B);
    if BlockOf(j, B) < BlockOf(i, B) { StartOrder(BlockOf(j, B), BlockOf(i, B), B); }
  }

  /** A table as LevelRead sees it: blocks of B entries, and per block a separator that is
      at or above its last key and below the next block's first. */
  ghost predicate Table(keys: seq<nat>, B: nat, separators: seq<nat>) {
    && Ascending(keys) && B > 0
    && forall i :: 0 <= i < |keys| ==> Separated(keys[i], BlockOf(i, B), separators)
  }

  ghost predicate Separated(key: nat, block: nat, separators: seq<nat>) {
    && block < |separators|
    && forall b :: 0 <= b < |separators| ==> (if block <= b then key <= separators[b] else separators[b] < key)
  }

  /** The block to read. */
  method ChooseBlock(B: nat, separators: seq<nat>, key: nat, lower: nat, upper: nat) returns (block: nat)
    requires B > 0 && BlockOf(lower, B) < |separators|
    ensures block == if BlockOf(lower, B) != BlockOf(upper, B) && separators[BlockOf(lower, B)] < key then BlockOf(upper, B)
                     else BlockOf(lower, B)
  {
    var indexLower, indexUpper := BlockOf(lower, B), BlockOf(upper, B);
    block := indexLower;
    if indexLower != indexUpper && separators[indexLower] < key {
      block := indexUpper;
    }
  }

  /** The first of the entries from lo to hi that is not below key, or hi. */
  method FirstNotBelow(keys: seq<nat>, key: nat, lo: nat, hi: nat) returns (left: nat)
    requires Ascending(keys) && lo <= hi < |keys|
    ensures lo <= left <= hi
    ensures forall i :: lo <= i < left ==> keys[i] < key
    ensures forall i :: left <= i < hi ==> key <= keys[i]
  {
    left := lo;
    var right := hi;
    while left < right
      invariant lo <= left <= right <= hi
      invariant forall i :: lo <= i < left ==> keys[i] < key
      invariant forall i :: right <= i < hi ==> key <= keys[i]
    {
      var mid := (left + right) / 2;
      if keys[mid] < key { left := mid + 1; } else { right := mid; }
    }
  }

  /** The positions read are the part of the window that lies in the block. */
  lemma ReadRange(B: nat, lower: nat, upper: nat, block: nat, lo: nat, hi: nat)
    requires B > 0 && lower <= upper && (block == BlockOf(lower, B) || block == BlockOf(upper, B))
    requires lo == Start(block, B) + if block == BlockOf(lower, B) then lower % B else 0
    requires hi == Start(block, B) + if block == BlockOf(upper, B) then upper % B else B - 1
    ensures lower <= lo <= hi <= upper
    ensures forall i :: lower <= i <= upper ==> (BlockOf(i, B) == block <==> lo <= i <= hi)
  {
    Within(lower, B);
    Within(upper, B);
    BlockOrder(lower, upper, B);
    if block < BlockOf(upper, B) { StartOrder(block, BlockOf(upper, B), B); }
    if BlockOf(lower, B) < block { StartOrder(BlockOf(lower, B), block, B); }
    forall i | lower <= i <= upper ensures BlockOf(i, B) == block <==> lo <= i <= hi {
      InBlock(i, block, B);
    }
  }

  /** A present key is in the chosen block exactly when it is in the window's first or
      last block. */
  lemma RightBlock(keys: seq<nat>, B: nat, separators: seq<nat>, lower: nat, upper: nat, block: nat, i: nat)
    requires Table(keys, B, separators) && lower <= i <= upper < |keys| && BlockOf(lower, B) < |separators|
    requires block == if BlockOf(lower, B) != BlockOf(upper, B) && separators[BlockOf(lower, B)] < keys[i] then BlockOf(upper, B)
                      else BlockOf(lower, B)
    ensures BlockOf(i, B) == block <==> BlockOf(i, B) == BlockOf(lower, B) || BlockOf(i, B) == BlockOf(upper, B)
  {
    BlockOrder(lower, i, B);
    BlockOrder(i, upper, B);
    assert Separated(keys[i], BlockOf(i, B), separators);
  }

  /** Reads within the window; the entry found is at position p. The window's first and
      last block are all that is ever looked at: a key that is present is found exactly
      when it is in one of them. */
  method LevelRead(keys: seq<nat>, B: nat, separators: seq<nat>, key: nat, lower: nat, upper: nat) returns (p: nat)
    requires Table(keys, B, separators) && lower <= upper < |keys|
    ensures p < |keys|
    ensures forall i :: lower <= i <= upper && keys[i] == key ==>
              (p == i <==> BlockOf(i, B) == BlockOf(lower, B) || BlockOf(i, B) == BlockOf(upper, B))
  {
    assert Separated(keys[lower], BlockOf(lower, B), separators);
    var block := ChooseBlock(B, separators, key, lower, upper);
    var posLower := if block == BlockOf(lower, B) then lower % B else 0;
    var posUpper := if block == BlockOf(upper, B) then upper % B else B - 1;
    var lo, hi := Start(block, B) + posLower, Start(block, B) + posUpper;
    ReadRange(B, lower, upper, block, lo, hi);
    p := FirstNotBelow(keys, key, lo, hi);
    forall i | lower <= i <= upper && keys[i] == key
      ensures p == i <==> BlockOf(i, B) == BlockOf(lower, B) || BlockOf(i, B) == BlockOf(upper, B)
    {
      RightBlock(keys, B, separators, lower, upper, block, i);
      if lo <= i <= hi { FoundIt(keys, key, lo, hi, p, keys[p], i); }
    }
  }

  lemma FoundIt(keys: seq<nat>, key: nat, lo: nat, hi: nat, p: nat, at: nat, i: nat)
    requires Ascending(keys) && lo <= i <= hi < |keys| && lo <= p <= hi && keys[i] == key && keys[p] == at
    requires forall k :: lo <= k < p ==> keys[k] < key
    requires forall k :: p <= k < hi ==> key <= keys[k]
    ensures p == i
  {
  }

  /** A window no longer than a block touches at most two, so nothing is missed. */
  lemma NarrowWindow(B: nat, lower: nat, upper: nat, i: nat)
    requires B > 0 && lower <= i <= upper && upper - lower <= B
    ensures BlockOf(i, B) == BlockOf(lower, B) || BlockOf(i, B) == BlockOf(upper, B)
  {
    Within(lower, B);
    Within(i, B);
    Within(upper, B);
    BlockOrder(lower, i, B);
    BlockOrder(i, upper, B);
    if BlockOf(lower, B) < BlockOf(i, B) < BlockOf(upper, B) {
      StartOrder(BlockOf(lower, B), BlockOf(i, B), B);
      StartOrder(BlockOf(i, B), BlockOf(upper, B), B);
    }
  }

  /** Looking a stored key up in one file through its model. With blocks of at least
      twice the error and two entries it is always found. */
  method Lookup(model: LearnedIndexData, keys: seq<nat>, B: nat, separators: seq<nat>, key: nat, ghost i: nat) returns (p: nat)
    requires model.Valid() && model.learned && model.keys == keys && Table(keys, B, separators)
    requires i < |keys| && keys[i] == key
    ensures 2.0 * model.error + 2.0 <= B as real ==> p == i
  {
    var lower, upper := model.GetPosition(key);
    p := LevelRead(keys, B, separators, key, lower, upper);
    if 2.0 * model.error + 2.0 <= B as real {
      NarrowWindow(B, lower, upper, i);
    }
  }

  /** The tables of a level: each file's part of the keys. */
  ghost predicate Tables(files: seq<FileEnd>, keys: seq<nat>, B: nat, separators: seq<seq<nat>>) {
    && HoldLevel(files, keys) && |separators| == |files|
    && forall f :: 0 <= f < |files| ==> Table(Part(files, keys, f), B, separators[f])
  }

  function Part(files: seq<FileEnd>, keys: seq<nat>, f: nat): seq<nat>
    requires f < |files|
  {
    if Base(files, f) <= files[f].total <= |keys| then keys[Base(files, f)..files[f].total] else []
  }

  lemma PartIs(files: seq<FileEnd>, keys: seq<nat>, i: nat, f: nat)
    requires HoldLevel(files, keys) && FileOf(files, i, f)
    ensures |Part(files, keys, f)| == files[f].total - Base(files, f)
    ensures Part(files, keys, f)[i - Base(files, f)] == keys[i]
  {
    assert files[f].total <= |keys|;
  }

  /** The whole way through a level model: position window, file, block, entry. A stored
      key is found, under the same bound on the blocks. */
  method LookupInLevel(model: LearnedIndexData, keys: seq<nat>, files: seq<FileEnd>, B: nat, separators: seq<seq<nat>>,
                       key: nat, ghost i: nat, ghost f: nat) returns (index: nat, p: nat)
    requires model.Valid() && model.learned && model.keys == keys && Tables(files, keys, B, separators)
    requires i < |keys| && keys[i] == key && FileOf(files, i, f)
    ensures index == f
    ensures 2.0 * model.error + 2.0 <= B as real ==> p == i - Base(files, f)
  {
    var lower, upper := model.GetPosition(key);
    assert 2.0 * model.error + 2.0 <= B as real ==> upper - lower <= B;
    index, p := ReadInLevel(keys, files, B, separators, key, lower, upper, i, f);
  }

  /** The same from a window that has the key's position. */
  method ReadInLevel(keys: seq<nat>, files: seq<FileEnd>, B: nat, separators: seq<seq<nat>>, key: nat, lower: nat, upper: nat,
                     ghost i: nat, ghost f: nat) returns (index: nat, p: nat)
    requires Tables(files, keys, B, separators) && Wanted(files, keys, key, lower, upper, i, f)
    ensures index == f && (upper - lower <= B ==> p == i - Base(files, f))
  {
    var ok, rl, ru;
    ok, index, rl, ru := Search(files, key, lower, upper, keys, i, f);
    PartIs(files, keys, i, f);
    p := LevelRead(Part(files, keys, index), B, separators[index], key, rl, ru);
    if upper - lower <= B { NarrowWindow(B, rl, ru, i - Base(files, f)); }
  }

  // ----- where it fails -----

  const SPREAD: seq<nat> := [1, 2, 3]
  const SPREAD_SEPARATORS: seq<nat> := [1, 2, 3]

  /** Blocks of one entry and a window over three of them: the middle key is missed. */
  lemma MiddleBlockIsMissed()
    ensures Table(SPREAD, 1, SPREAD_SEPARATORS)
    ensures BlockOf(1, 1) != BlockOf(0, 1) && BlockOf(1, 1) != BlockOf(2, 1)
  {
  }

  /** Key 2 at position 1, window 0 to 2: the read ends elsewhere. */
  method ReadMiddle() returns (p: nat)
    ensures SPREAD[1] == 2 && p < |SPREAD| && p != 1
  {
    MiddleBlockIsMissed();
    p := LevelRead(SPREAD, 1, SPREAD_SEPARATORS, 2, 0, 2);
    assert SPREAD[1] == 2;
  }
}
