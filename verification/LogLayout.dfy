/** How records are laid out in blocks, and what a reader finds of a layout. */
module LogLayout {
  import opened LogFormat

  /** A block trailer, or a fragment. */
  datatype Item = Pad(n: nat) | Frag(t: RecordType, data: seq<Byte>)

  function ItemBytes(crc: Checksum, i: Item): seq<Byte> {
    match i case Pad(n) => Zeros(n) case Frag(t, data) => Physical(crc, t, data)
  }

  /** A trailer fills the block and is too short for a header; a fragment does not
      cross a block end. */
  predicate FitsAt(i: Item, pos: nat) {
    match i
    case Pad(n) => n == Left(pos) < HEADER
    case Frag(_, data) => HEADER + |data| <= Left(pos)
  }

  function Size(i: Item): nat {
    match i case Pad(n) => n case Frag(_, data) => HEADER + |data|
  }

  predicate Fits(items: seq<Item>, pos: nat)
    decreases |items|
  {
    items == [] || (FitsAt(items[0], pos) && Fits(items[1..], pos + Size(items[0])))
  }

  /** The bytes of an item, as a function value */
  type Renderer = Item -> seq<Byte>

  function RendererOf(crc: Checksum): Renderer {
    (i: Item) => ItemBytes(crc, i)
  }

  function Bytes(render: Renderer, items: seq<Item>): seq<Byte> {
    if items == [] then [] else render(items[0]) + Bytes(render, items[1..])
  }

  /** The fragments among the items, as a reader returns them. */
  function Fragments(items: seq<Item>): seq<Found> {
    if items == [] then []
    else (match items[0] case Pad(_) => [] case Frag(t, data) => [Piece(TypeByte(t), data)]) + Fragments(items[1..])
  }

  lemma {:induction false} BytesConcat(render: Renderer, a: seq<Item>, b: seq<Item>)
    ensures Bytes(render, a + b) == Bytes(render, a) + Bytes(render, b)
  {
    if a == [] {
      assert a + b == b;
    } else {
      assert (a + b)[1..] == a[1..] + b;
      BytesConcat(render, a[1..], b);
    }
  }

  // ----- the stream of physical records in a file -----

  /** ReadPhysicalRecord as a function of the position */
  type Parser = nat -> Parsed

  function ParserOf(crc: Checksum, file: seq<Byte>): Parser {
    (q: nat) => if q <= |file| then ParseAt(crc, file, q) else Eof
  }

  ghost predicate Advances(parse: Parser, limit: nat) {
    forall q: nat :: q <= limit && parse(q).Parsed? ==> q < parse(q).next <= limit
  }

  predicate Probe(q: nat) { true }
  predicate ProbeItem(i: Item) { true }

  /** parse reads this file and render writes this format. The triggers keep the byte
      format out of proofs that only follow positions. */
  ghost predicate Codec(parse: Parser, render: Renderer, crc: Checksum, file: seq<Byte>) {
    && Advances(parse, |file|)
    && (forall i: Item :: |render(i)| == Size(i))
    && (forall i: Item {:trigger ProbeItem(i)} :: render(i) == ItemBytes(crc, i))
    && (forall q: nat {:trigger Probe(q)} :: q <= |file| ==> parse(q) == ParseAt(crc, file, q))
  }

  lemma IsCodec(crc: Checksum, file: seq<Byte>)
    ensures Codec(ParserOf(crc, file), RendererOf(crc), crc, file)
  {
  }

  function Pieces(parse: Parser, limit: nat, q: nat): seq<Found>
    requires q <= limit && Advances(parse, limit)
    decreases limit - q
  {
    match parse(q)
    case Eof => []
    case Parsed(found, next) => [found] + Pieces(parse, limit, next)
  }

  lemma NextPiece(parse: Parser, limit: nat, q: nat)
    requires q <= limit && Advances(parse, limit)
    ensures parse(q) == Eof ==> Pieces(parse, limit, q) == []
    ensures parse(q).Parsed? ==> Pieces(parse, limit, q) == [parse(q).found] + Pieces(parse, limit, parse(q).next)
  {
  }

  ghost predicate HasAt(file: seq<Byte>, q: nat, s: seq<Byte>) {
    q + |s| <= |file| && file[q..q + |s|] == s
  }

  /** The file ends inside s. */
  ghost predicate CutIn(file: seq<Byte>, q: nat, s: seq<Byte>) {
    q <= |file| < q + |s| && file[q..] == s[..|file| - q]
  }

  /** The file holds s from q on, as far as the file goes. */
  ghost predicate PrefixAt(file: seq<Byte>, q: nat, s: seq<Byte>) {
    q <= |file| <= q + |s| && file[q..] == s[..|file| - q]
  }

  lemma PrefixSplit(file: seq<Byte>, q: nat, a: seq<Byte>, b: seq<Byte>)
    requires PrefixAt(file, q, a + b)
    ensures |file| < q + |a| ==> CutIn(file, q, a)
    ensures |file| >= q + |a| ==> HasAt(file, q, a) && PrefixAt(file, q + |a|, b)
  {
    var n := |file| - q;
    if n < |a| {
      assert (a + b)[..n] == a[..n];
    } else {
      assert (a + b)[..n] == a + b[..n - |a|];
      assert file[q..q + |a|] == file[q..][..|a|];
      assert file[q + |a|..] == file[q..][|a|..];
    }
  }

  /** One item in the file: what it contributes to the stream. */
  lemma ItemWhole(parse: Parser, render: Renderer, crc: Checksum, file: seq<Byte>, q: nat, i: Item)
    requires Codec(parse, render, crc, file) && FitsAt(i, q) && HasAt(file, q, render(i))
    ensures Pieces(parse, |file|, q) == Fragments([i]) + Pieces(parse, |file|, q + Size(i))
  {
    match i
    case Pad(n) => PadWhole(parse, render, crc, file, q, n);
    case Frag(t, data) => FragWhole(parse, render, crc, file, q, t, data);
  }

  lemma PadWhole(parse: Parser, render: Renderer, crc: Checksum, file: seq<Byte>, q: nat, n: nat)
    requires Codec(parse, render, crc, file) && FitsAt(Pad(n), q) && HasAt(file, q, render(Pad(n)))
    ensures Pieces(parse, |file|, q) == Fragments([Pad(n)]) + Pieces(parse, |file|, q + Size(Pad(n)))
  {
    assert Probe(q) && Probe(q + Size(Pad(n))) && ProbeItem(Pad(n));
    TrailerSkipped(crc, file, q);
  }

  lemma FragWhole(parse: Parser, render: Renderer, crc: Checksum, file: seq<Byte>, q: nat, t: RecordType, data: seq<Byte>)
    requires Codec(parse, render, crc, file) && FitsAt(Frag(t, data), q) && HasAt(file, q, render(Frag(t, data)))
    ensures Pieces(parse, |file|, q) == Fragments([Frag(t, data)]) + Pieces(parse, |file|, q + Size(Frag(t, data)))
  {
    FragParsed(parse, render, crc, file, q, t, data);
    NextPiece(parse, |file|, q);
  }

  lemma FragParsed(parse: Parser, render: Renderer, crc: Checksum, file: seq<Byte>, q: nat, t: RecordType, data: seq<Byte>)
    requires Codec(parse, render, crc, file) && FitsAt(Frag(t, data), q) && HasAt(file, q, render(Frag(t, data)))
    ensures parse(q) == Parsed(Piece(TypeByte(t), data), q + Size(Frag(t, data)))
  {
    assert Probe(q) && ProbeItem(Frag(t, data));
    PieceWhole(crc, file, q, t, data);
  }

  lemma ItemCut(parse: Parser, render: Renderer, crc: Checksum, file: seq<Byte>, q: nat, i: Item)
    requires Codec(parse, render, crc, file) && FitsAt(i, q) && CutIn(file, q, render(i))
    ensures Pieces(parse, |file|, q) == []
  {
    assert Probe(q) && ProbeItem(i);
    match i
    case Pad(n) => TrailerSkipped(crc, file, q);
    case Frag(t, data) => PieceTorn(crc, file, q, t, data);
  }

  lemma FragmentsCons(i: Item, rest: seq<Item>)
    ensures Fragments([i] + rest) == Fragments([i]) + Fragments(rest)
  {
    assert ([i] + rest)[1..] == rest;
  }

  // ----- layouts -----

  function SizeAll(items: seq<Item>): nat {
    if items == [] then 0 else Size(items[0]) + SizeAll(items[1..])
  }

  /** How many leading items lie entirely within n bytes. */
  function Fit(items: seq<Item>, n: nat): (m: nat)
    ensures m <= |items|
  {
    if items == [] || Size(items[0]) > n then 0 else 1 + Fit(items[1..], n - Size(items[0]))
  }

  lemma {:induction false} FitConcat(a: seq<Item>, b: seq<Item>, n: nat)
    ensures SizeAll(a) <= n ==> Fit(a + b, n) == |a| + Fit(b, n - SizeAll(a))
    ensures SizeAll(a) > n ==> Fit(a + b, n) < |a|
    decreases |a|
  {
    if a == [] {
      assert a + b == b;
    } else {
      assert (a + b)[1..] == a[1..] + b;
      if Size(a[0]) <= n { FitConcat(a[1..], b, n - Size(a[0])); }
    }
  }

  lemma {:induction false} FitsConcat(a: seq<Item>, b: seq<Item>, pos: nat)
    requires Fits(a, pos) && Fits(b, pos + SizeAll(a))
    ensures Fits(a + b, pos)
    decreases |a|
  {
    if a == [] {
      assert a + b == b;
    } else {
      assert (a + b)[1..] == a[1..] + b;
      FitsConcat(a[1..], b, pos + Size(a[0]));
    }
  }

  lemma {:induction false} FragmentsConcat(a: seq<Item>, b: seq<Item>)
    ensures Fragments(a + b) == Fragments(a) + Fragments(b)
    decreases |a|
  {
    if a == [] {
      assert a + b == b;
    } else {
      assert (a + b)[1..] == a[1..] + b;
      FragmentsConcat(a[1..], b);
    }
  }

  lemma NothingAtEnd(parse: Parser, render: Renderer, crc: Checksum, file: seq<Byte>, q: nat)
    requires Codec(parse, render, crc, file) && q == |file|
    ensures Pieces(parse, |file|, q) == []
  {
    assert Probe(q);
    assert Buffered(file, q) == [];
  }

  lemma FragmentsHead(items: seq<Item>, m: nat)
    requires m < |items|
    ensures Fragments(items[..m + 1]) == Fragments([items[0]] + items[1..][..m])
    ensures Fragments([items[0]] + items[1..][..m]) == Fragments([items[0]]) + Fragments(items[1..][..m])
  {
    assert items[..m + 1] == [items[0]] + items[1..][..m];
    FragmentsConcat([items[0]], items[1..][..m]);
  }

  /** The first item is there, and what follows it has been read. */
  lemma ReadHead(parse: Parser, render: Renderer, crc: Checksum, file: seq<Byte>, q: nat, items: seq<Item>)
    requires Codec(parse, render, crc, file) && items != [] && FitsAt(items[0], q) && HasAt(file, q, render(items[0]))
    requires q + Size(items[0]) <= |file|
    requires Pieces(parse, |file|, q + Size(items[0])) == Fragments(items[1..][..Fit(items[1..], |file| - (q + Size(items[0])))])
    ensures Pieces(parse, |file|, q) == Fragments(items[..Fit(items, |file| - q)])
  {
    ItemWhole(parse, render, crc, file, q, items[0]);
    FragmentsHead(items, Fit(items[1..], |file| - (q + Size(items[0]))));
  }

  /** Wherever the file ends, the fragments that lie wholly in it are read back, and
      nothing else. */
  lemma {:induction false} ReadLayout(parse: Parser, render: Renderer, crc: Checksum, file: seq<Byte>, q: nat, items: seq<Item>)
    requires Codec(parse, render, crc, file) && Fits(items, q) && PrefixAt(file, q, Bytes(render, items))
    ensures Pieces(parse, |file|, q) == Fragments(items[..Fit(items, |file| - q)])
    decreases |items|
  {
    if items == [] {
      NothingAtEnd(parse, render, crc, file, q);
    } else {
      var i, rest := items[0], items[1..];
      PrefixSplit(file, q, render(i), Bytes(render, rest));
      if q + Size(i) <= |file| {
        ReadLayout(parse, render, crc, file, q + Size(i), rest);
        ReadHead(parse, render, crc, file, q, items);
      } else {
        ItemCut(parse, render, crc, file, q, i);
      }
    }
  }

  lemma {:induction false} BytesSize(parse: Parser, render: Renderer, crc: Checksum, file: seq<Byte>, items: seq<Item>)
    requires Codec(parse, render, crc, file)
    ensures |Bytes(render, items)| == SizeAll(items)
  {
    if items != [] { BytesSize(parse, render, crc, file, items[1..]); }
  }

  /** Cutting off a last fragment loses it. */
  lemma {:induction false} CutFragments(items: seq<Item>, m: nat)
    requires m < |items| && items[|items| - 1].Frag?
    ensures Fragments(items[..m]) < Fragments(items)
  {
    assert items == items[..m] + items[m..];
    FragmentsConcat(items[..m], items[m..]);
    SomeFragment(items[m..]);
  }

  lemma {:induction false} SomeFragment(items: seq<Item>)
    requires items != [] && items[|items| - 1].Frag?
    ensures Fragments(items) != []
  {
    if |items| > 1 { SomeFragment(items[1..]); }
  }
}
