/** The block redirection graph (impl/dependency.h:77-311): where each block of a value
    file has been moved to, followed a bounded number of times, and its file format. */
module Blocks {

  type Word32 = x: nat | x < 0x1_0000_0000
  type Word64 = x: nat | x < 0x1_0000_0000_0000_0000
  type Byte = x: nat | x < 256

  datatype Location = Location(file: Word64, block: Word32)
  datatype Range = Range(start: Word32, end: Word32)
  datatype Entry = Entry(newFile: Word64, range: Range, refCount: Word32)

  type Mappings = map<Location, Entry>

  const MAX_REDIRECT: nat := 10

  /** Every entry is for one block, and points to a later file, none past B. */
  ghost predicate Rising(m: Mappings, B: nat) {
    forall l :: l in m ==> m[l].range.start == m[l].range.end && l.file < m[l].newFile <= B
  }

  function Target(e: Entry): Location {
    Location(e.newFile, e.range.start)
  }

  /** The end of the chain, however long. */
  ghost function Final(m: Mappings, B: nat, l: Location): Location
    requires Rising(m, B)
    decreases if l in m then B - l.file else 0
  {
    if l in m then Final(m, B, Target(m[l])) else l
  }

  ghost function Depth(m: Mappings, B: nat, l: Location): nat
    requires Rising(m, B)
    decreases if l in m then B - l.file else 0
  {
    if l in m then 1 + Depth(m, B, Target(m[l])) else 0
  }

  lemma {:induction false} FinalIsLater(m: Mappings, B: nat, l: Location)
    requires Rising(m, B)
    ensures Final(m, B, l) !in m && l.file <= Final(m, B, l).file
    ensures Final(m, B, l) == l <==> l !in m
    decreases if l in m then B - l.file else 0
  {
    if l in m { FinalIsLater(m, B, Target(m[l])); }
  }

  class DependencyGraph {
    var mappings: Mappings

    constructor ()
      ensures mappings == map[]
    {
      mappings := map[];
    }

    /** Maps each block of a range to the block at the same offset of the new range. */
    method AddMapping(originFile: Word64, originRange: Range, newFile: Word64, newRange: Range)
      requires originRange.start <= originRange.end && newRange.start <= newRange.end
      requires originRange.end - originRange.start == newRange.end - newRange.start
      modifies this
      ensures MappedBy(old(mappings), mappings, originFile, originRange, newFile, newRange)
    {
      var i := 0;
      var size := originRange.end - originRange.start + 1;
      while i < size
        invariant 0 <= i <= size
        invariant forall l :: l in mappings <==> l in old(mappings) || (Inside(l, originFile, originRange) && l.block < originRange.start + i)
        invariant forall l :: l in mappings && !(Inside(l, originFile, originRange) && l.block < originRange.start + i) ==>
                    mappings[l] == old(mappings)[l]
        invariant forall l :: Inside(l, originFile, originRange) && l.block < originRange.start + i ==>
                    && mappings[l].newFile == newFile && mappings[l].refCount == 1
                    && mappings[l].range.start == mappings[l].range.end
                    && mappings[l].range.start - newRange.start == l.block - originRange.start
      {
        var origin := Location(originFile, originRange.start + i);
        var single := Range(newRange.start + i, newRange.start + i);
        mappings := mappings[origin := Entry(newFile, single, 1)];
        i := i + 1;
      }
    }

    /** Follows the chain for at most ten steps. */
    method LookupBlock(file: Word64, block: Word32, ghost B: nat) returns (found: bool, at: Location, redirects: nat)
      requires Rising(mappings, B)
      ensures redirects == if Depth(mappings, B, Location(file, block)) <= MAX_REDIRECT
                           then Depth(mappings, B, Location(file, block)) else MAX_REDIRECT
      ensures at == Final(mappings, B, Location(file, block)) <==> Depth(mappings, B, Location(file, block)) <= MAX_REDIRECT
      ensures found <==> Location(file, block) in mappings
    {
      ghost var origin := Location(file, block);
      at, redirects := Location(file, block), 0;
      while redirects < MAX_REDIRECT
        invariant redirects <= MAX_REDIRECT
        invariant redirects + Depth(mappings, B, at) == Depth(mappings, B, origin)
        invariant Final(mappings, B, at) == Final(mappings, B, origin)
        invariant if redirects == 0 then at == origin else origin in mappings && origin.file < at.file
      {
        if at !in mappings {
          found := at.file != file || at.block != block;
          return;
        }
        var entry := mappings[at];
        at := Location(entry.newFile, entry.range.start); // the key found is `at` itself, so the offset is 0
        redirects := redirects + 1;
      }
      FinalIsLater(mappings, B, at);
      found := true;
    }

    /** Writes the graph out; the hash map decides the order. */
    method SaveToFile(order: seq<Location>) returns (bs: seq<Byte>)
      requires Enumerates(order, mappings)
      ensures bs == SavedBytes(mappings, order)
    {
      var entries := [];
      var i := 0;
      while i < |order|
        invariant i <= |order| && entries == EntriesBytes(mappings, order[..i])
      {
        assert order[i] in order;
        EntriesGrow(mappings, order, i);
        entries := entries + EntryBytes(order[i], mappings[order[i]]);
        i := i + 1;
      }
      assert order[..i] == order;
      bs := Encode(1, 4) + Encode(Count(order), 4) + entries;
    }

    /** Replaces the graph by the one in the file, if there is one. A file that is missing
        or broken is written anew, empty. */
    method LoadFromFile(found: bool, bs: seq<Byte>) returns (file: seq<Byte>)
      modifies this
      ensures mappings == if found then Loaded(bs) else map[]
      ensures file == if found && Intact(bs) then bs else SavedBytes(map[], [])
    {
      mappings := map[];
      file := SaveToFile([]);
      if !found || |bs| < 4 || Read32(bs, 0) != 1 || |bs| < 8 { return; }
      var whole := ReadEntries(bs, Read32(bs, 4));
      if whole { file := bs; }
    }

    /** The loop of LoadFromFile. A file too short for its entries counts as empty. */
    method ReadEntries(bs: seq<Byte>, count: nat) returns (whole: bool)
      requires mappings == map[] && |bs| >= 8
      modifies this
      ensures mappings == LoadEntries(bs[8..], count, map[])
      ensures whole <==> ENTRY * count <= |bs| - 8
    {
      var i, pos := 0, 8;
      while i < count
        invariant i <= count && 8 <= pos <= |bs| && Loading(bs, count, i, pos, mappings)
      {
        LoadNext(bs, count, i, pos, mappings);
        if |bs| - pos < ENTRY {
          mappings := map[];
          return false;
        }
        mappings := mappings[ReadLocation(bs[pos..]) := ReadEntry(bs[pos..])];
        i, pos := i + 1, pos + ENTRY;
      }
      whole := true;
    }
  }

  /** The first i entries have been read, up to pos. */
  ghost predicate Loading(bs: seq<Byte>, count: nat, i: nat, pos: nat, m: Mappings) {
    && i <= count && 8 <= pos <= |bs|
    && LoadEntries(bs[pos..], count - i, m) == LoadEntries(bs[8..], count, map[])
    && (ENTRY * (count - i) <= |bs| - pos <==> ENTRY * count <= |bs| - 8)
  }

  lemma LoadNext(bs: seq<Byte>, count: nat, i: nat, pos: nat, m: Mappings)
    requires Loading(bs, count, i, pos, m) && i < count
    ensures |bs| - pos < ENTRY ==> LoadEntries(bs[8..], count, map[]) == map[] && ENTRY * count > |bs| - 8
    ensures |bs| - pos >= ENTRY ==>
              Loading(bs, count, i + 1, pos + ENTRY, m[ReadLocation(bs[pos..]) := ReadEntry(bs[pos..])])
  {
    if |bs| - pos >= ENTRY { assert bs[pos..][ENTRY..] == bs[pos + ENTRY..]; }
  }

  /** The file has the version and all the entries it announces. */
  predicate Intact(bs: seq<Byte>) {
    |bs| >= 8 && Read32(bs, 0) == 1 && ENTRY * Read32(bs, 4) <= |bs| - 8
  }

  lemma {:induction false} EntriesGrow(m: Mappings, order: seq<Location>, i: nat)
    requires i < |order| && forall l :: l in order ==> l in m
    ensures EntriesBytes(m, order[..i + 1]) == EntriesBytes(m, order[..i]) + EntryBytes(order[i], m[order[i]])
    decreases i
  {
    if i == 0 {
      assert order[..1] == [order[0]] && order[..1][1..] == [];
    } else {
      assert order[..i + 1][1..] == order[1..][..i] && order[..i][1..] == order[1..][..i - 1];
      EntriesGrow(m, order[1..], i - 1);
    }
  }

  predicate Inside(l: Location, file: Word64, range: Range) {
    l.file == file && range.start <= l.block <= range.end
  }

  /** Each block of the range is mapped to the one as far into the new range, and nothing
      else has changed. */
  ghost predicate MappedBy(m: Mappings, m': Mappings, originFile: Word64, originRange: Range, newFile: Word64, newRange: Range) {
    && (forall l :: l in m' <==> l in m || Inside(l, originFile, originRange))
    && (forall l :: l in m' && !Inside(l, originFile, originRange) ==> m'[l] == m[l])
    && (forall l :: l in m' && Inside(l, originFile, originRange) ==>
          && m'[l].newFile == newFile && m'[l].refCount == 1 && m'[l].range.start == m'[l].range.end
          && m'[l].range.start - newRange.start == l.block - originRange.start)
  }

  /** Mapping blocks to a file with a larger number keeps every chain finite. */
  lemma AddMappingKeepsRising(m: Mappings, m': Mappings, B: nat,
                              originFile: Word64, originRange: Range, newFile: Word64, newRange: Range)
    requires Rising(m, B) && originFile < newFile
    requires MappedBy(m, m', originFile, originRange, newFile, newRange)
    ensures Rising(m', if newFile <= B then B else newFile)
  {
  }

  /** One call of AddMapping. */
  datatype Move = Move(originFile: Word64, origin: Range, newFile: Word64, target: Range)

  /** A collection moves blocks into a file it has just made. */
  predicate Forward(v: Move, B: nat) {
    && v.originFile < v.newFile <= B
    && v.origin.start <= v.origin.end && v.target.start <= v.target.end
    && v.origin.end - v.origin.start == v.target.end - v.target.start
  }

  predicate Moves(v: Move, l: Location) {
    Inside(l, v.originFile, v.origin)
  }

  /** The last of the first n moves that moves l, and -1 if none does. */
  function LastMove(moves: seq<Move>, n: nat, l: Location): (k: int)
    requires n <= |moves|
    ensures -1 <= k < n && (k >= 0 ==> Moves(moves[k], l))
    ensures forall i :: k < i < n ==> !Moves(moves[i], l)
  {
    if n == 0 then -1 else if Moves(moves[n - 1], l) then n - 1 else LastMove(moves, n - 1, l)
  }

  /** The entry sends l to the place the move gives it. */
  predicate Puts(v: Move, l: Location, e: Entry) {
    && e.newFile == v.newFile && e.range.start == e.range.end
    && e.range.start - v.target.start == l.block - v.origin.start
  }

  /** What the first n moves have made of the graph: a block is where its last move has put
      it, at the same offset, and where it was if none has moved it. */
  ghost predicate AfterMoves(was: Mappings, m: Mappings, moves: seq<Move>, n: nat)
    requires n <= |moves|
  {
    && (forall l :: l in m <==> l in was || LastMove(moves, n, l) >= 0)
    && (forall l :: l in m && LastMove(moves, n, l) < 0 ==> m[l] == was[l])
    && (forall l :: l in m && LastMove(moves, n, l) >= 0 ==> Puts(moves[LastMove(moves, n, l)], l, m[l]))
  }

  lemma MovedMore(was: Mappings, m: Mappings, m': Mappings, moves: seq<Move>, n: nat)
    requires n < |moves| && AfterMoves(was, m, moves, n)
    requires MappedBy(m, m', moves[n].originFile, moves[n].origin, moves[n].newFile, moves[n].target)
    ensures AfterMoves(was, m', moves, n + 1)
  {
    forall l ensures LastMove(moves, n + 1, l) == if Moves(moves[n], l) then n else LastMove(moves, n, l) {
    }
  }

  lemma MoveStep(was: Mappings, m: Mappings, m': Mappings, moves: seq<Move>, n: nat, B: Word64)
    requires n < |moves| && Forward(moves[n], B) && Rising(m, B) && AfterMoves(was, m, moves, n)
    requires MappedBy(m, m', moves[n].originFile, moves[n].origin, moves[n].newFile, moves[n].target)
    ensures Rising(m', B) && AfterMoves(was, m', moves, n + 1)
  {
    AddMappingKeepsRising(m, m', B, moves[n].originFile, moves[n].origin, moves[n].newFile, moves[n].target);
    MovedMore(was, m, m', moves, n);
  }

  /** Over any list of such calls every chain stays finite. */
  method AddAll(g: DependencyGraph, moves: seq<Move>, B: Word64)
    requires Rising(g.mappings, B) && forall i :: 0 <= i < |moves| ==> Forward(moves[i], B)
    modifies g
    ensures Rising(g.mappings, B) && AfterMoves(old(g.mappings), g.mappings, moves, |moves|)
  {
    var i := 0;
    while i < |moves|
      invariant i <= |moves| && Rising(g.mappings, B) && AfterMoves(old(g.mappings), g.mappings, moves, i)
    {
      ghost var m := g.mappings;
      g.AddMapping(moves[i].originFile, moves[i].origin, moves[i].newFile, moves[i].target);
      MoveStep(old(g.mappings), m, g.mappings, moves, i, B);
      i := i + 1;
    }
  }

  /** The chain of a moved block goes on from where its last move has put it, and that of
      any other block starts as it did. */
  lemma MovedBlock(was: Mappings, m: Mappings, B: Word64, moves: seq<Move>, l: Location)
    requires Rising(m, B) && AfterMoves(was, m, moves, |moves|) && forall i :: 0 <= i < |moves| ==> Forward(moves[i], B)
    ensures var k := LastMove(moves, |moves|, l);
            if k >= 0 then Final(m, B, l) == Final(m, B, Landing(moves[k], l))
            else if l in was then Final(m, B, l) == Final(m, B, Target(was[l]))
            else Final(m, B, l) == l
  {
    var k := LastMove(moves, |moves|, l);
    if k >= 0 { assert Forward(moves[k], B); }
  }

  /** Where a move puts a block: as far into the new range as it was into the old one. */
  function Landing(v: Move, l: Location): Location {
    var b := v.target.start + l.block - v.origin.start;
    Location(v.newFile, if 0 <= b < 0x1_0000_0000 then b else 0)
  }

  lemma {:induction false} ChainDepth(m: Mappings, B: nat, n: nat, k: nat)
    requires Rising(m, B) && n < 0x1_0000 && k <= n
    requires forall i :: 0 <= i < n ==> Location(i, 0) in m && m[Location(i, 0)] == Entry(i + 1, Range(0, 0), 1)
    requires Location(n, 0) !in m
    ensures Depth(m, B, Location(n - k, 0)) == k
  {
    if k > 0 { ChainDepth(m, B, n, k - 1); }
  }

  /** Block 0 moved n times, from file 0 to file n. */
  function Moved(n: Word64): Mappings {
    if n == 0 then map[] else Moved(n - 1)[Location(n - 1, 0) := Entry(n, Range(0, 0), 1)]
  }

  lemma {:induction false} MovedIs(n: Word64)
    ensures forall l :: l in Moved(n) <==> l.block == 0 && l.file < n
    ensures forall l :: l in Moved(n) ==> Moved(n)[l] == Entry(l.file + 1, Range(0, 0), 1)
  {
    if n > 0 { MovedIs(n - 1); }
  }

  /** Eleven moves: more than a lookup follows. */
  lemma EleventhMoveIsNotFollowed()
    ensures Rising(Moved(11), 11) && Depth(Moved(11), 11, Location(0, 0)) > MAX_REDIRECT
  {
    MovedIs(11);
    ChainDepth(Moved(11), 11, 11, 11);
  }

  // ----- the file -----

  function Pow256(w: nat): nat {
    if w == 0 then 1 else 256 * Pow256(w - 1)
  }

  /** An integer as w bytes, lowest first. */
  function Encode(n: nat, w: nat): (bs: seq<Byte>)
    ensures |bs| == w
  {
    if w == 0 then [] else [n % 256] + Encode(n / 256, w - 1)
  }

  function Decode(bs: seq<Byte>): nat {
    if bs == [] then 0 else bs[0] + 256 * Decode(bs[1..])
  }

  lemma {:induction false} DecodeEncode(n: nat, w: nat)
    requires n < Pow256(w)
    ensures Decode(Encode(n, w)) == n
  {
    if w > 0 {
      DecodeEncode(n / 256, w - 1);
      assert Encode(n, w)[1..] == Encode(n / 256, w - 1);
    }
  }

  lemma {:induction false} DecodeBound(bs: seq<Byte>)
    ensures Decode(bs) < Pow256(|bs|)
  {
    if bs != [] { DecodeBound(bs[1..]); }
  }

  lemma Widths()
    ensures Pow256(4) == 0x1_0000_0000 && Pow256(8) == 0x1_0000_0000_0000_0000
  {
    assert Pow256(2) == 0x1_0000;
    assert Pow256(4) == 256 * (256 * Pow256(2));
    assert Pow256(6) == 256 * (256 * Pow256(4));
    assert Pow256(8) == 256 * (256 * Pow256(6));
  }

  function Read32(bs: seq<Byte>, i: nat): Word32
    requires i + 4 <= |bs|
  {
    DecodeBound(bs[i..i + 4]);
    Widths();
    Decode(bs[i..i + 4])
  }

  function Read64(bs: seq<Byte>, i: nat): Word64
    requires i + 8 <= |bs|
  {
    DecodeBound(bs[i..i + 8]);
    Widths();
    Decode(bs[i..i + 8])
  }

  const ENTRY: nat := 32

  function EntryBytes(l: Location, e: Entry): (bs: seq<Byte>)
    ensures |bs| == ENTRY
  {
    Encode(l.file, 8) + Encode(l.block, 4) + Encode(e.newFile, 8) + Encode(e.range.start, 4) + Encode(e.range.end, 4) + Encode(e.refCount, 4)
  }

  function ReadLocation(bs: seq<Byte>): Location
    requires |bs| >= ENTRY
  {
    Location(Read64(bs, 0), Read32(bs, 8))
  }

  function ReadEntry(bs: seq<Byte>): Entry
    requires |bs| >= ENTRY
  {
    Entry(Read64(bs, 12), Range(Read32(bs, 20), Read32(bs, 24)), Read32(bs, 28))
  }

  lemma Slices(a: seq<Byte>, b: seq<Byte>, c: seq<Byte>, d: seq<Byte>, e: seq<Byte>, f: seq<Byte>, rest: seq<Byte>)
    requires |a| == |c| == 8 && |b| == |d| == |e| == |f| == 4
    ensures var bs := a + b + c + d + e + f + rest;
            && bs[0..8] == a && bs[8..12] == b && bs[12..20] == c
            && bs[20..24] == d && bs[24..28] == e && bs[28..32] == f
  {
  }

  lemma EntryRoundTrip(l: Location, e: Entry, rest: seq<Byte>)
    ensures ReadLocation(EntryBytes(l, e) + rest) == l && ReadEntry(EntryBytes(l, e) + rest) == e
  {
    Widths();
    Slices(Encode(l.file, 8), Encode(l.block, 4), Encode(e.newFile, 8),
           Encode(e.range.start, 4), Encode(e.range.end, 4), Encode(e.refCount, 4), rest);
    DecodeEncode(l.file, 8);
    DecodeEncode(l.block, 4);
    DecodeEncode(e.newFile, 8);
    DecodeEncode(e.range.start, 4);
    DecodeEncode(e.range.end, 4);
    DecodeEncode(e.refCount, 4);
  }

  function EntriesBytes(m: Mappings, order: seq<Location>): (bs: seq<Byte>)
    requires forall l :: l in order ==> l in m
    ensures |bs| == ENTRY * |order|
  {
    if order == [] then [] else EntryBytes(order[0], m[order[0]]) + EntriesBytes(m, order[1..])
  }

  /** The file, with the entries in the order the hash map gives them. */
  function SavedBytes(m: Mappings, order: seq<Location>): seq<Byte>
    requires forall l :: l in order ==> l in m
  {
    Encode(1, 4) + Encode(Count(order), 4) + EntriesBytes(m, order)
  }

  function LoadEntries(bs: seq<Byte>, count: nat, m: Mappings): Mappings
    decreases count
  {
    if count == 0 then m
    else if |bs| < ENTRY then map[]
    else LoadEntries(bs[ENTRY..], count - 1, m[ReadLocation(bs) := ReadEntry(bs)])
  }

  /** What loading gives: a file of another version, or cut short, counts as empty. */
  function Loaded(bs: seq<Byte>): Mappings {
    if |bs| < 8 || Read32(bs, 0) != 1 then map[] else LoadEntries(bs[8..], Read32(bs, 4), map[])
  }

  /** The i-th of count entries is one for l. */
  predicate NamesAt(bs: seq<Byte>, count: nat, i: nat, l: Location) {
    i < count && ENTRY * count <= |bs| && ReadLocation(bs[ENTRY * i..]) == l
  }

  ghost predicate LastNames(bs: seq<Byte>, count: nat, i: nat, l: Location) {
    NamesAt(bs, count, i, l) && forall j :: i < j < count ==> !NamesAt(bs, count, j, l)
  }

  ghost predicate NoneNames(bs: seq<Byte>, count: nat, l: Location) {
    forall i: nat :: !NamesAt(bs, count, i, l)
  }

  lemma NamesNext(bs: seq<Byte>, count: nat, i: nat, l: Location)
    requires 0 < count && ENTRY * count <= |bs|
    ensures NamesAt(bs[ENTRY..], count - 1, i, l) <==> NamesAt(bs, count, i + 1, l)
    ensures i + 1 < count ==> bs[ENTRY..][ENTRY * i..] == bs[ENTRY * (i + 1)..]
  {
    if i + 1 < count { assert bs[ENTRY..][ENTRY * i..] == bs[ENTRY * (i + 1)..]; }
  }

  /** The last entry for a location counts. */
  lemma {:induction false} LoadLast(bs: seq<Byte>, count: nat, acc: Mappings, i: nat, l: Location)
    requires LastNames(bs, count, i, l)
    ensures var m := LoadEntries(bs, count, acc); l in m && m[l] == ReadEntry(bs[ENTRY * i..])
    decreases count
  {
    LoadFront(bs, count, acc, l);
    var rest, more := bs[ENTRY..], acc[ReadLocation(bs) := ReadEntry(bs)];
    if i > 0 {
      LastNext(bs, count, i - 1, l);
      LoadLast(rest, count - 1, more, i - 1, l);
    } else {
      NoneNext(bs, count, l);
      LoadNone(rest, count - 1, more, l);
    }
  }

  lemma LastNext(bs: seq<Byte>, count: nat, i: nat, l: Location)
    requires LastNames(bs, count, i + 1, l)
    ensures LastNames(bs[ENTRY..], count - 1, i, l) && bs[ENTRY..][ENTRY * i..] == bs[ENTRY * (i + 1)..]
  {
    NamesNext(bs, count, i, l);
    var rest, n: nat := bs[ENTRY..], count - 1;
    forall j | i < j < n ensures !NamesAt(rest, n, j, l) {
      NamesNext(bs, count, j, l);
    }
  }

  lemma NoneNext(bs: seq<Byte>, count: nat, l: Location)
    requires 0 < count && ENTRY * count <= |bs| && forall j :: 0 < j < count ==> !NamesAt(bs, count, j, l)
    ensures NoneNames(bs[ENTRY..], count - 1, l)
  {
    var rest, n: nat := bs[ENTRY..], count - 1;
    forall j: nat ensures !NamesAt(rest, n, j, l) {
      NamesNext(bs, count, j, l);
    }
  }

  lemma {:induction false} LoadNone(bs: seq<Byte>, count: nat, acc: Mappings, l: Location)
    requires ENTRY * count <= |bs| && NoneNames(bs, count, l)
    ensures var m := LoadEntries(bs, count, acc); (l in m <==> l in acc) && (l in m ==> m[l] == acc[l])
    decreases count
  {
    if count > 0 {
      LoadFront(bs, count, acc, l);
      NoneNext(bs, count, l);
      LoadNone(bs[ENTRY..], count - 1, acc[ReadLocation(bs) := ReadEntry(bs)], l);
    }
  }

  lemma LoadFront(bs: seq<Byte>, count: nat, acc: Mappings, l: Location)
    requires 0 < count && ENTRY * count <= |bs|
    ensures LoadEntries(bs, count, acc) == LoadEntries(bs[ENTRY..], count - 1, acc[ReadLocation(bs) := ReadEntry(bs)])
    ensures NamesAt(bs, count, 0, l) <==> ReadLocation(bs) == l
    ensures bs[ENTRY * 0..] == bs
  {
    assert bs[ENTRY * 0..] == bs;
  }

  /** Whatever the bytes are: a file that is short or of another version is an empty graph,
      and any other maps exactly the locations it has entries for, by the last of them. */
  lemma LoadedExact(bs: seq<Byte>, l: Location)
    ensures !Intact(bs) ==> Loaded(bs) == map[]
    ensures Intact(bs) ==> (l in Loaded(bs) <==> exists i :: NamesAt(bs[8..], Read32(bs, 4), i, l))
    ensures Intact(bs) ==> forall i: nat :: LastNames(bs[8..], Read32(bs, 4), i, l) ==>
              l in Loaded(bs) && Loaded(bs)[l] == ReadEntry(bs[8..][ENTRY * i..])
  {
    if Intact(bs) {
      var rest, count := bs[8..], Read32(bs, 4);
      forall i: nat | LastNames(rest, count, i, l) ensures l in Loaded(bs) && Loaded(bs)[l] == ReadEntry(rest[ENTRY * i..]) {
        LoadLast(rest, count, map[], i, l);
      }
      if exists i: nat :: NamesAt(rest, count, i, l) {
        var i := LastOne(rest, count, l);
      } else {
        LoadNone(rest, count, map[], l);
      }
    } else if |bs| >= 8 && Read32(bs, 0) == 1 {
      TooShort(bs[8..], Read32(bs, 4), map[]);
    }
  }

  lemma {:induction false} TooShort(bs: seq<Byte>, count: nat, acc: Mappings)
    requires ENTRY * count > |bs|
    ensures LoadEntries(bs, count, acc) == map[]
    decreases count
  {
    if |bs| >= ENTRY { TooShort(bs[ENTRY..], count - 1, acc[ReadLocation(bs) := ReadEntry(bs)]); }
  }

  lemma LastOne(bs: seq<Byte>, count: nat, l: Location) returns (i: nat)
    requires exists k: nat :: NamesAt(bs, count, k, l)
    ensures LastNames(bs, count, i, l)
  {
    i := count - 1;
    while !NamesAt(bs, count, i, l)
      invariant i < count && forall j :: i < j < count ==> !NamesAt(bs, count, j, l)
      decreases i
    {
      ghost var k: nat :| NamesAt(bs, count, k, l);
      i := i - 1;
    }
  }

  /** Where each field of an entry is: file number, block, new file number, the new range
      and the reference count, each with its low byte first. */
  lemma EntryLayout(f: Byte, f': Byte, b: Byte, g: Byte, g': Byte, first: Byte, last: Byte, refs: Byte)
    ensures EntryBytes(Location(f + 256 * f', b), Entry(g + 256 * g', Range(first, last), refs)) ==
            [f, f', 0, 0, 0, 0, 0, 0] + [b, 0, 0, 0] + [g, g', 0, 0, 0, 0, 0, 0]
            + [first, 0, 0, 0] + [last, 0, 0, 0] + [refs, 0, 0, 0]
  {
    Little8(f, f');
    Little4(b);
    Little8(g, g');
    Little4(first);
    Little4(last);
    Little4(refs);
  }

  lemma Little4(n: Byte)
    ensures Encode(n, 4) == [n, 0, 0, 0]
  {
    ZeroBytes(3);
    assert Encode(0, 3) == [0, 0, 0];
  }

  lemma LowByte(low: Byte, rest: nat, w: nat)
    ensures Encode(low + 256 * rest, w + 1) == [low] + Encode(rest, w)
  {
    assert (low + 256 * rest) % 256 == low && (low + 256 * rest) / 256 == rest;
  }

  lemma Little8(low: Byte, high: Byte)
    ensures Encode(low + 256 * high, 8) == [low, high, 0, 0, 0, 0, 0, 0]
  {
    ZeroBytes(6);
    LowByte(low, high, 7);
    LowByte(high, 0, 6);
  }

  lemma {:induction false} ZeroBytes(w: nat)
    ensures forall i :: 0 <= i < w ==> Encode(0, w)[i] == 0
  {
    if w > 0 { ZeroBytes(w - 1); }
  }

  ghost predicate Enumerates(order: seq<Location>, m: Mappings) {
    && (forall l :: l in order <==> l in m)
    && (forall i, j :: 0 <= i < j < |order| ==> order[i] != order[j])
  }

  function Picked(m: Mappings, order: seq<Location>): Mappings
    requires forall l :: l in order ==> l in m
  {
    map l | l in order :: m[l]
  }

  lemma LoadOne(l: Location, e: Entry, rest: seq<Byte>, n: nat, acc: Mappings)
    ensures LoadEntries(EntryBytes(l, e) + rest, n + 1, acc) == LoadEntries(rest, n, acc[l := e])
  {
    EntryRoundTrip(l, e, rest);
    assert (EntryBytes(l, e) + rest)[ENTRY..] == rest;
  }

  lemma PickFirst(m: Mappings, order: seq<Location>, n: nat, acc: Mappings)
    requires 0 < n <= |order| && forall l :: l in order ==> l in m
    ensures acc[order[0] := m[order[0]]] + Picked(m, order[1..][..n - 1]) == acc + Picked(m, order[..n])
  {
    assert order[..n] == [order[0]] + order[1..][..n - 1];
  }

  /** Asked for n entries, loading takes the first n. */
  lemma {:induction false} LoadFirst(m: Mappings, order: seq<Location>, n: nat, acc: Mappings)
    requires (forall l :: l in order ==> l in m) && n <= |order|
    ensures LoadEntries(EntriesBytes(m, order), n, acc) == acc + Picked(m, order[..n])
    decreases n
  {
    if n == 0 {
      assert acc + Picked(m, order[..n]) == acc;
    } else {
      var l := order[0];
      LoadOne(l, m[l], EntriesBytes(m, order[1..]), n - 1, acc);
      assert EntriesBytes(m, order) == EntryBytes(l, m[l]) + EntriesBytes(m, order[1..]);
      LoadFirst(m, order[1..], n - 1, acc[l := m[l]]);
      PickFirst(m, order, n, acc);
    }
  }

  lemma {:induction false} LoadCut(m: Mappings, order: seq<Location>, acc: Mappings, k: nat)
    requires (forall l :: l in order ==> l in m) && k < |EntriesBytes(m, order)|
    ensures LoadEntries(EntriesBytes(m, order)[..k], |order|, acc) == map[]
    decreases |order|
  {
    var bs := EntriesBytes(m, order)[..k];
    if k >= ENTRY {
      assert bs[ENTRY..] == EntriesBytes(m, order[1..])[..k - ENTRY];
      LoadCut(m, order[1..], acc[ReadLocation(bs) := ReadEntry(bs)], k - ENTRY);
    }
  }

  lemma HeaderReads(n: Word32, entries: seq<Byte>)
    ensures var bs := Encode(1, 4) + Encode(n, 4) + entries; Read32(bs, 0) == 1 && Read32(bs, 4) == n && bs[8..] == entries
  {
    Widths();
    DecodeEncode(1, 4);
    DecodeEncode(n, 4);
    HeaderSlices(Encode(1, 4), Encode(n, 4), entries);
  }

  lemma HeaderSlices(a: seq<Byte>, b: seq<Byte>, rest: seq<Byte>)
    requires |a| == |b| == 4
    ensures var bs := a + b + rest; bs[0..4] == a && bs[4..8] == b && bs[8..] == rest
  {
  }

  lemma LoadedEntries(n: Word32, entries: seq<Byte>)
    ensures Loaded(Encode(1, 4) + Encode(n, 4) + entries) == LoadEntries(entries, n, map[])
  {
    HeaderReads(n, entries);
  }

  lemma PickAll(m: Mappings, order: seq<Location>, n: nat)
    requires Enumerates(order, m) && n <= |order|
    ensures map[] + Picked(m, order[..n]) == m <==> n == |order|
  {
    if n < |order| {
      assert order[n] in order && order[n] !in order[..n];
    } else {
      assert order[..n] == order;
    }
  }

  function Count(order: seq<Location>): Word32 {
    |order| % 0x1_0000_0000
  }

  lemma CountIs(order: seq<Location>)
    ensures Count(order) <= |order| && (Count(order) == |order| <==> |order| < 0x1_0000_0000)
  {
  }

  /** Saving and loading gives the graph back, and with it all lookups, exactly as long as
      the number of mappings fits the 32-bit count. */
  lemma SaveLoad(m: Mappings, order: seq<Location>)
    requires Enumerates(order, m)
    ensures Loaded(SavedBytes(m, order)) == m <==> |order| < 0x1_0000_0000
  {
    CountIs(order);
    LoadedEntries(Count(order), EntriesBytes(m, order));
    LoadFirst(m, order, Count(order), map[]);
    PickAll(m, order, Count(order));
  }

  function FirstBlocks(n: Word64): seq<Location> {
    seq(n, i requires 0 <= i < n => Location(i, 0))
  }

  lemma FirstBlocksEnumerate(n: Word64)
    ensures Enumerates(FirstBlocks(n), Moved(n)) && |FirstBlocks(n)| == n
  {
    MovedIs(n);
    forall l | l in Moved(n) ensures l in FirstBlocks(n) {
      assert FirstBlocks(n)[l.file] == l;
    }
  }

  /** It does not for the graph in which block 0 has moved 2^32 times. */
  lemma LargeGraphIsLost(n: Word64)
    requires n == 0x1_0000_0000
    ensures Enumerates(FirstBlocks(n), Moved(n)) && Loaded(SavedBytes(Moved(n), FirstBlocks(n))) != Moved(n)
  {
    FirstBlocksEnumerate(n);
    SaveLoad(Moved(n), FirstBlocks(n));
  }

  /** A file cut short loads as the empty graph. */
  lemma CutFileIsEmpty(m: Mappings, order: seq<Location>, k: nat)
    requires Enumerates(order, m) && |order| < 0x1_0000_0000 && k < |SavedBytes(m, order)|
    ensures Loaded(SavedBytes(m, order)[..k]) == map[]
  {
    if k >= 8 {
      var entries := EntriesBytes(m, order)[..k - 8];
      CountIs(order);
      assert SavedBytes(m, order)[..k] == Encode(1, 4) + Encode(|order|, 4) + entries;
      LoadedEntries(|order|, entries);
      LoadCut(m, order, map[], k - 8);
    }
  }
}
