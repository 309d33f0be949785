/** Logical records: what AddRecord writes and ReadRecord puts together again, for
    readers that start at offset 0. */
module LogFile {
  import opened LogFormat
  import opened LogLayout

  // ----- AddRecord -----

  function FragmentType(begin: bool, end: bool): RecordType {
    if begin && end then Full else if begin then First else if end then Last else Middle
  }

  /** How much of the data goes into the current block. */
  function Cut(off: nat, data: seq<Byte>): (n: nat)
    requires off + HEADER <= BLOCK
    ensures n <= |data| && off + HEADER + n <= BLOCK
  {
    Min(|data|, BLOCK - off - HEADER)
  }

  /** Only a record that finds no room for data leaves `data` as it is, and then the
      offset moves on. */
  function Rank(off: nat): nat
    requires off <= BLOCK
  {
    if off == 0 then 0 else BLOCK + 1 - off
  }

  function Trailer(off: nat): seq<Item>
    requires off <= BLOCK
  {
    if off == BLOCK then [] else [Pad(BLOCK - off)]
  }

  /** The items AddRecord appends for `data` at block offset `off`. */
  function Layout(off: nat, data: seq<Byte>, begin: bool): seq<Item>
    requires off <= BLOCK
    decreases |data|, Rank(off)
  {
    if BLOCK - off < HEADER then Trailer(off) + Layout(0, data, begin)
    else
      var n := Cut(off, data);
      if n == |data| then [Frag(FragmentType(begin, true), data)]
      else [Frag(FragmentType(begin, false), data[..n])] + Layout(off + HEADER + n, data[n..], false)
  }

  /** The writer's offset agrees with the length of the file. */
  predicate Agrees(off: nat, pos: nat) {
    off <= BLOCK && (off == BLOCK - Left(pos) || (off == BLOCK && Left(pos) == BLOCK))
  }

  lemma AgreesNext(off: nat, pos: nat, n: nat)
    requires Agrees(off, pos) && off + n <= BLOCK
    ensures Agrees(off + n, pos + n)
    ensures off < BLOCK ==> Left(pos) == BLOCK - off
    ensures off + n == BLOCK ==> Agrees(0, pos + n)
  {
    if off < BLOCK {
      if n < Left(pos) { LeftStep(pos, n); } else { LeftNext(pos); }
    }
  }

  /** Items that fit where they are and end with a fragment. */
  ghost predicate LaidOut(items: seq<Item>, pos: nat) {
    Fits(items, pos) && items != [] && items[|items| - 1].Frag?
  }

  lemma LaidOutCons(i: Item, rest: seq<Item>, pos: nat)
    requires FitsAt(i, pos) && LaidOut(rest, pos + Size(i))
    ensures LaidOut([i] + rest, pos)
  {
    assert ([i] + rest)[1..] == rest;
  }

  lemma LaidOutOne(t: RecordType, data: seq<Byte>, pos: nat)
    requires FitsAt(Frag(t, data), pos)
    ensures LaidOut([Frag(t, data)], pos)
  {
    assert [Frag(t, data)][1..] == [];
  }

  lemma {:induction false} LayoutFits(off: nat, pos: nat, data: seq<Byte>, begin: bool)
    requires Agrees(off, pos)
    ensures LaidOut(Layout(off, data, begin), pos)
    decreases |data|, Rank(off)
  {
    if BLOCK - off < HEADER {
      var rest := Layout(0, data, begin);
      AgreesNext(off, pos, BLOCK - off);
      LayoutFits(0, pos + (BLOCK - off), data, begin);
      if off < BLOCK {
        LaidOutCons(Pad(BLOCK - off), rest, pos);
      } else {
        assert Trailer(off) + rest == rest;
      }
    } else {
      var n := Cut(off, data);
      AgreesNext(off, pos, HEADER + n);
      if n < |data| {
        var rest := Layout(off + HEADER + n, data[n..], false);
        LayoutFits(off + HEADER + n, pos + HEADER + n, data[n..], false);
        LaidOutCons(Frag(FragmentType(begin, false), data[..n]), rest, pos);
      } else {
        LaidOutOne(FragmentType(begin, true), data, pos);
      }
    }
  }

  /** Every fragment but the last fills its block. */
  predicate Tight(items: seq<Item>, pos: nat) {
    |items| > 1 ==> (items[0].Frag? ==> Size(items[0]) == Left(pos)) && Tight(items[1..], pos + Size(items[0]))
  }

  lemma TightCons(i: Item, rest: seq<Item>, pos: nat)
    requires (i.Frag? ==> Size(i) == Left(pos)) && Tight(rest, pos + Size(i))
    ensures Tight([i] + rest, pos)
  {
    assert ([i] + rest)[1..] == rest;
  }

  /** No block is left with room for a header while there is data to put into it. */
  lemma {:induction false} LayoutTight(off: nat, pos: nat, data: seq<Byte>, begin: bool)
    requires Agrees(off, pos)
    ensures Tight(Layout(off, data, begin), pos)
    decreases |data|, Rank(off)
  {
    if BLOCK - off < HEADER {
      var rest := Layout(0, data, begin);
      AgreesNext(off, pos, BLOCK - off);
      LayoutTight(0, pos + (BLOCK - off), data, begin);
      if off < BLOCK {
        TightCons(Pad(BLOCK - off), rest, pos);
      } else {
        assert Trailer(off) + rest == rest;
      }
    } else {
      var n := Cut(off, data);
      AgreesNext(off, pos, HEADER + n);
      if n < |data| {
        var rest := Layout(off + HEADER + n, data[n..], false);
        LayoutTight(off + HEADER + n, pos + HEADER + n, data[n..], false);
        TightCons(Frag(FragmentType(begin, false), data[..n]), rest, pos);
      }
    }
  }

  /** The example of doc/log_format.md: a record of 1000 bytes at the start of a block, one
      of 97270 behind it and one of 8000 behind that. */
  lemma DocumentedExample(a: seq<Byte>, b: seq<Byte>, c: seq<Byte>)
    requires |a| == 1000 && |b| == 97270 && |c| == 8000
    ensures Layout(0, a, true) == [Frag(Full, a)]
    ensures Layout(1007, b, true) == [Frag(First, b[..31754]), Frag(Middle, b[31754..64515]), Frag(Last, b[64515..])]
    ensures Layout(32762, c, true) == [Pad(6), Frag(Full, c)]
  {
    var rest := b[31754..];
    assert Layout(32768, rest, false) == Trailer(32768) + Layout(0, rest, false);
    assert rest[..32761] == b[31754..64515] && rest[32761..] == b[64515..];
    assert Layout(0, rest, false) == [Frag(Middle, rest[..32761])] + Layout(32768, rest[32761..], false);
    assert Layout(32768, rest[32761..], false) == Trailer(32768) + Layout(0, rest[32761..], false);
  }

  /** How a writer lays out a record at a file position */
  type Layouter = (nat, seq<Byte>) -> seq<Item>

  /** The layout of log::Writer */
  function WriterLayout(): Layouter {
    (pos: nat, data: seq<Byte>) => Layout(BLOCK - Left(pos), data, true)
  }

  /** The layouts of the records from record k on, when record k starts at `pos`. */
  function Parts(layout: Layouter, pos: nat, records: seq<seq<Byte>>, k: nat): (parts: seq<seq<Item>>)
    requires k <= |records|
    ensures |parts| == |records| - k
    decreases |records| - k
  {
    if k == |records| then []
    else
      var here := layout(pos, records[k]);
      [here] + Parts(layout, pos + SizeAll(here), records, k + 1)
  }

  function Joined(parts: seq<seq<Item>>): seq<Item> {
    if parts == [] then [] else parts[0] + Joined(parts[1..])
  }

  // ----- one ReadRecord call -----

  datatype Answer = Done(reports: nat) | Got(record: seq<Byte>, rest: seq<Found>, reports: nat)

  function Reported(a: Answer, n: nat): Answer {
    match a
    case Done(r) => Done(r + n)
    case Got(record, rest, r) => Got(record, rest, r + n)
  }

  function One(b: bool): nat { if b then 1 else 0 }

  /** The switch on one physical record: return a logical record, go on, or end the log. */
  datatype Taken =
    | Return(record: seq<Byte>, reports: nat)
    | Go(inFragment: bool, scratch: seq<Byte>, reports: nat)
    | Stop(reports: nat)

  // ReadPhysicalRecord returns the type byte itself, so that a record may carry the values
  // that stand for the end of the file and for a bad record.
  const K_EOF: nat := 5
  const K_BAD_RECORD: nat := 6

  function Take(found: Found, inFragment: bool, scratch: seq<Byte>): Taken {
    match found
    case Bad(reported) => Go(false, if inFragment then [] else scratch, One(reported) + One(inFragment))
    case Piece(kind, data) =>
      if kind == 1 then Return(data, One(inFragment && scratch != []))
      else if kind == 2 then Go(true, data, One(inFragment && scratch != []))
      else if kind == 3 then if inFragment then Go(true, scratch + data, 0) else Go(false, scratch, 1)
      else if kind == 4 then if inFragment then Return(scratch + data, 0) else Go(false, scratch, 1)
      else if kind == K_EOF then Stop(0)
      else if kind == K_BAD_RECORD then Go(false, if inFragment then [] else scratch, One(inFragment))
      else Go(false, [], 1)
  }

  /** ReadRecord on a stream of physical records, inside or outside a record begun before. */
  function Assemble(ps: seq<Found>, inFragment: bool, scratch: seq<Byte>): (a: Answer)
    ensures a.Got? ==> |a.rest| < |ps|
    decreases |ps|
  {
    if ps == [] then Done(0)
    else
      match Take(ps[0], inFragment, scratch)
      case Return(record, n) => Got(record, ps[1..], n)
      case Stop(n) => Done(n)
      case Go(inFragment', scratch', n) => Reported(Assemble(ps[1..], inFragment', scratch'), n)
  }

  function PieceOf(begin: bool, end: bool, data: seq<Byte>): Found {
    Piece(TypeByte(FragmentType(begin, end)), data)
  }

  /** The fragments of a record, read off the definition of Layout. */
  lemma LayoutFragments(off: nat, data: seq<Byte>, begin: bool)
    requires off <= BLOCK
    ensures BLOCK - off < HEADER ==> Fragments(Layout(off, data, begin)) == Fragments(Layout(0, data, begin))
    ensures BLOCK - off >= HEADER && Cut(off, data) == |data| ==>
              Fragments(Layout(off, data, begin)) == [PieceOf(begin, true, data)]
    ensures BLOCK - off >= HEADER && Cut(off, data) < |data| ==>
              var n := Cut(off, data);
              Fragments(Layout(off, data, begin)) ==
              [PieceOf(begin, false, data[..n])] + Fragments(Layout(off + HEADER + n, data[n..], false))
  {
    if BLOCK - off < HEADER {
      if off < BLOCK {
        FragmentsCons(Pad(BLOCK - off), Layout(0, data, begin));
      } else {
        assert Trailer(off) + Layout(0, data, begin) == Layout(0, data, begin);
      }
    } else if Cut(off, data) < |data| {
      var n := Cut(off, data);
      FragmentsCons(Frag(FragmentType(begin, false), data[..n]), Layout(off + HEADER + n, data[n..], false));
    }
  }

  lemma AssemblePart(begin: bool, part: seq<Byte>, scratch: seq<Byte>, more: seq<Found>)
    requires begin ==> scratch == []
    ensures Assemble([PieceOf(begin, false, part)] + more, !begin, scratch) == Assemble(more, true, scratch + part)
    ensures Assemble([PieceOf(begin, true, part)] + more, !begin, scratch) == Got(scratch + part, more, 0)
  {
    assert ([PieceOf(begin, false, part)] + more)[1..] == more;
    assert ([PieceOf(begin, true, part)] + more)[1..] == more;
    assert begin ==> scratch + part == part;
  }

  /** fs are the fragments of one record, in order. */
  predicate Chain(fs: seq<Found>, data: seq<Byte>, begin: bool)
    decreases |fs|
  {
    && fs != [] && fs[0].Piece?
    && if |fs| == 1 then fs[0] == PieceOf(begin, true, data)
       else
         var n := |fs[0].data|;
         n <= |data| && fs[0] == PieceOf(begin, false, data[..n]) && Chain(fs[1..], data[n..], false)
  }

  lemma {:induction false} LayoutChain(off: nat, data: seq<Byte>, begin: bool)
    requires off <= BLOCK
    ensures Chain(Fragments(Layout(off, data, begin)), data, begin)
    decreases |data|, Rank(off)
  {
    LayoutFragments(off, data, begin);
    if BLOCK - off < HEADER {
      LayoutChain(0, data, begin);
    } else {
      var n := Cut(off, data);
      if n < |data| {
        LayoutChain(off + HEADER + n, data[n..], false);
        ChainCons(Fragments(Layout(off + HEADER + n, data[n..], false)), data, begin, n);
      }
    }
  }

  lemma ChainCons(more: seq<Found>, data: seq<Byte>, begin: bool, n: nat)
    requires n <= |data| && Chain(more, data[n..], false)
    ensures Chain([PieceOf(begin, false, data[..n])] + more, data, begin)
  {
    var fs := [PieceOf(begin, false, data[..n])] + more;
    assert fs[1..] == more;
  }

  lemma Regroup(fs: seq<Found>, rest: seq<Found>, scratch: seq<Byte>, data: seq<Byte>, n: nat)
    requires fs != [] && n <= |data|
    ensures fs + rest == [fs[0]] + (fs[1..] + rest)
    ensures scratch + data[..n] + data[n..] == scratch + data
  {
  }

  /** All fragments of a record: they are put together again, silently. */
  lemma {:induction false} AssembleWhole(fs: seq<Found>, data: seq<Byte>, begin: bool, scratch: seq<Byte>, rest: seq<Found>)
    requires Chain(fs, data, begin) && (begin ==> scratch == [])
    ensures Assemble(fs + rest, !begin, scratch) == Got(scratch + data, rest, 0)
    decreases |fs|
  {
    if |fs| == 1 {
      AssemblePart(begin, data, scratch, rest);
    } else {
      var n, more := |fs[0].data|, fs[1..];
      AssembleWhole(more, data[n..], false, scratch + data[..n], rest);
      AssemblePart(begin, data[..n], scratch, more + rest);
      Regroup(fs, rest, scratch, data, n);
    }
  }

  /** Only some of the fragments, then the end of the file: nothing, silently. */
  lemma {:induction false} AssembleCut(fs: seq<Found>, data: seq<Byte>, begin: bool, scratch: seq<Byte>, ps: seq<Found>)
    requires Chain(fs, data, begin) && (begin ==> scratch == []) && ps < fs
    ensures Assemble(ps, !begin, scratch) == Done(0)
    decreases |fs|
  {
    if ps != [] {
      var n := |fs[0].data|;
      AssembleCut(fs[1..], data[n..], false, scratch + data[..n], ps[1..]);
      AssemblePart(begin, data[..n], scratch, ps[1..]);
      assert ps == [fs[0]] + ps[1..];
    }
  }

  // ----- a whole log -----

  datatype AllRead = AllRead(records: seq<seq<Byte>>, reports: nat)

  /** ReadRecord until it returns false */
  function ReadAll(ps: seq<Found>): AllRead
    decreases |ps|
  {
    match Assemble(ps, false, [])
    case Done(reports) => AllRead([], reports)
    case Got(record, rest, reports) =>
      var more := ReadAll(rest);
      AllRead([record] + more.records, reports + more.reports)
  }

  /** How many leading parts lie entirely within n bytes. */
  function Whole(parts: seq<seq<Item>>, n: nat): (m: nat)
    ensures m <= |parts|
  {
    if parts == [] || SizeAll(parts[0]) > n then 0 else 1 + Whole(parts[1..], n - SizeAll(parts[0]))
  }

  lemma {:induction false} SizeConcat(a: seq<Item>, b: seq<Item>)
    ensures SizeAll(a + b) == SizeAll(a) + SizeAll(b)
  {
    if a == [] {
      assert a + b == b;
    } else {
      assert (a + b)[1..] == a[1..] + b;
      SizeConcat(a[1..], b);
    }
  }

  lemma {:induction false} WholeIsMaximal(parts: seq<seq<Item>>, n: nat, m: nat)
    requires m <= |parts|
    ensures m <= Whole(parts, n) <==> SizeAll(Joined(parts[..m])) <= n
    decreases |parts|
  {
    if m > 0 {
      assert parts[..m][1..] == parts[1..][..m - 1];
      SizeConcat(parts[0], Joined(parts[1..][..m - 1]));
      if SizeAll(parts[0]) <= n {
        WholeIsMaximal(parts[1..], n - SizeAll(parts[0]), m - 1);
      }
    }
  }

  /** What a reader needs of the layout of a record: a last fragment, and fragments that
      chain up to the record. */
  ghost predicate Carries(items: seq<Item>, record: seq<Byte>) {
    items != [] && items[|items| - 1].Frag? && Chain(Fragments(items), record, true)
  }

  predicate ProbePart(k: nat) { true }

  ghost predicate AllCarry(parts: seq<seq<Item>>, records: seq<seq<Byte>>) {
    |parts| == |records| &&
    forall k: nat {:trigger ProbePart(k)} :: k < |parts| ==> Carries(parts[k], records[k])
  }

  lemma {:induction false} PartsCarry(pos: nat, records: seq<seq<Byte>>, k: nat, i: nat)
    requires k <= i < |records|
    ensures Carries(Parts(WriterLayout(), pos, records, k)[i - k], records[i])
    decreases i - k
  {
    if i == k {
      WriterCarries(pos, records[k]);
    } else {
      PartsCarry(pos + SizeAll(WriterLayout()(pos, records[k])), records, k + 1, i);
    }
  }

  lemma WriterCarries(pos: nat, record: seq<Byte>)
    ensures Carries(WriterLayout()(pos, record), record)
  {
    LayoutFits(BLOCK - Left(pos), pos, record, true);
    LayoutChain(BLOCK - Left(pos), record, true);
  }

  lemma WriterFits(pos: nat, record: seq<Byte>)
    ensures LaidOut(WriterLayout()(pos, record), pos)
  {
    LayoutFits(BLOCK - Left(pos), pos, record, true);
  }

  lemma {:induction false} PartsFit(pos: nat, records: seq<seq<Byte>>, k: nat)
    requires k <= |records|
    ensures Fits(Joined(Parts(WriterLayout(), pos, records, k)), pos)
    decreases |records| - k
  {
    if k < |records| {
      var here := WriterLayout()(pos, records[k]);
      var rest := Parts(WriterLayout(), pos + SizeAll(here), records, k + 1);
      WriterFits(pos, records[k]);
      PartsFit(pos + SizeAll(here), records, k + 1);
      FitsConcat(here, Joined(rest), pos);
      assert ([here] + rest)[1..] == rest;
    }
  }

  // ReadAll over items, as a value, so that a proof decides when its definition is needed.
  type Replayer = seq<Item> -> AllRead

  function ReplayerOf(): Replayer {
    (items: seq<Item>) => ReadAll(Fragments(items))
  }

  predicate ProbeItems(items: seq<Item>) { true }

  ghost predicate IsReplayer(replay: Replayer) {
    forall items: seq<Item> {:trigger ProbeItems(items)} :: replay(items) == ReadAll(Fragments(items))
  }

  /** The fragments of the items within n bytes assemble to the records within n bytes. */
  lemma {:induction false} AssembleLog(replay: Replayer, parts: seq<seq<Item>>, records: seq<seq<Byte>>, n: nat)
    requires IsReplayer(replay) && AllCarry(parts, records)
    ensures var items := Joined(parts);
            replay(items[..Fit(items, n)]) == AllRead(records[..Whole(parts, n)], 0)
    decreases |parts|
  {
    if parts == [] {
      ReplayNone(replay);
    } else {
      var here, rest := parts[0], Joined(parts[1..]);
      assert ProbePart(0);
      if SizeAll(here) <= n {
        CarryRest(parts, records);
        AssembleLog(replay, parts[1..], records[1..], n - SizeAll(here));
        AssembleMore(replay, here, rest, records, Whole(parts[1..], n - SizeAll(here)), n);
      } else {
        AssembleLess(replay, here, rest, records[0], n);
      }
    }
  }

  lemma CarryRest(parts: seq<seq<Item>>, records: seq<seq<Byte>>)
    requires AllCarry(parts, records) && parts != []
    ensures AllCarry(parts[1..], records[1..])
  {
    forall k: nat | k < |parts[1..]| ensures Carries(parts[1..][k], records[1..][k]) {
      assert ProbePart(k + 1);
    }
  }

  lemma AssembleLess(replay: Replayer, here: seq<Item>, rest: seq<Item>, record: seq<Byte>, n: nat)
    requires IsReplayer(replay) && Carries(here, record) && n < SizeAll(here)
    ensures replay((here + rest)[..Fit(here + rest, n)]) == AllRead([], 0)
  {
    FitPrefix(here, rest, n);
    ReplayCut(replay, here, record, Fit(here + rest, n));
  }

  lemma AssembleMore(replay: Replayer, here: seq<Item>, rest: seq<Item>, records: seq<seq<Byte>>, w: nat, n: nat)
    requires IsReplayer(replay) && w < |records| && Carries(here, records[0]) && SizeAll(here) <= n
    requires replay(rest[..Fit(rest, n - SizeAll(here))]) == AllRead(records[1..][..w], 0)
    ensures replay((here + rest)[..Fit(here + rest, n)]) == AllRead(records[..w + 1], 0)
  {
    FitPrefix(here, rest, n);
    ReplayHead(replay, here, rest[..Fit(rest, n - SizeAll(here))], records[0], records[1..][..w]);
    FirstRecord(records, w);
  }

  lemma FitPrefix(here: seq<Item>, rest: seq<Item>, n: nat)
    ensures SizeAll(here) <= n ==> (here + rest)[..Fit(here + rest, n)] == here + rest[..Fit(rest, n - SizeAll(here))]
    ensures SizeAll(here) > n ==> Fit(here + rest, n) < |here| && (here + rest)[..Fit(here + rest, n)] == here[..Fit(here + rest, n)]
  {
    FitConcat(here, rest, n);
  }

  lemma FirstRecord(records: seq<seq<Byte>>, w: nat)
    requires w < |records|
    ensures [records[0]] + records[1..][..w] == records[..w + 1]
  {
  }

  lemma ReplayHead(replay: Replayer, here: seq<Item>, more: seq<Item>, record: seq<Byte>, records: seq<seq<Byte>>)
    requires IsReplayer(replay) && Carries(here, record) && replay(more) == AllRead(records, 0)
    ensures replay(here + more) == AllRead([record] + records, 0)
  {
    assert ProbeItems(here + more) && ProbeItems(more);
    FragmentsConcat(here, more);
    ReadHead(Fragments(here), Fragments(more), record, records);
  }

  lemma ReplayCut(replay: Replayer, here: seq<Item>, record: seq<Byte>, m: nat)
    requires IsReplayer(replay) && Carries(here, record) && m < |here|
    ensures replay(here[..m]) == AllRead([], 0)
  {
    assert ProbeItems(here[..m]);
    CutFragments(here, m);
    AssembleCut(Fragments(here), record, true, [], Fragments(here[..m]));
    ReadNone(Fragments(here[..m]));
  }

  lemma ReplayNone(replay: Replayer)
    requires IsReplayer(replay)
    ensures replay([]) == AllRead([], 0)
  {
    assert ProbeItems([]);
    ReadNone([]);
  }

  lemma ReadHead(fs: seq<Found>, rest: seq<Found>, record: seq<Byte>, records: seq<seq<Byte>>)
    requires Chain(fs, record, true) && ReadAll(rest) == AllRead(records, 0)
    ensures ReadAll(fs + rest) == AllRead([record] + records, 0)
  {
    AssembleWhole(fs, record, true, [], rest);
    ReadMore(fs + rest, rest, record, records);
  }

  lemma ReadMore(ps: seq<Found>, rest: seq<Found>, record: seq<Byte>, records: seq<seq<Byte>>)
    requires Assemble(ps, false, []) == Got(record, rest, 0) && ReadAll(rest) == AllRead(records, 0)
    ensures ReadAll(ps) == AllRead([record] + records, 0)
  {
  }

  lemma ReadNone(ps: seq<Found>)
    requires Assemble(ps, false, []) == Done(0)
    ensures ReadAll(ps) == AllRead([], 0)
  {
  }

  /** The file log::Writer produces for a list of records. */
  function WrittenLog(crc: Checksum, records: seq<seq<Byte>>): seq<Byte> {
    Bytes(RendererOf(crc), Joined(Parts(WriterLayout(), 0, records, 0)))
  }

  lemma WrittenSize(crc: Checksum, records: seq<seq<Byte>>)
    ensures |WrittenLog(crc, records)| == SizeAll(Joined(Parts(WriterLayout(), 0, records, 0)))
  {
    IsCodec(crc, []);
    BytesSize(ParserOf(crc, []), RendererOf(crc), crc, [], Joined(Parts(WriterLayout(), 0, records, 0)));
  }

  lemma {:induction false} PartsPrefix(layout: Layouter, pos: nat, records: seq<seq<Byte>>, k: nat, m: nat)
    requires k <= m <= |records|
    ensures Parts(layout, pos, records[..m], k) == Parts(layout, pos, records, k)[..m - k]
    decreases m - k
  {
    if k < m {
      PartsPrefix(layout, pos + SizeAll(layout(pos, records[k])), records, k + 1, m);
    }
  }

  /** m is how many leading records of a log lie entirely within its first n bytes. */
  ghost predicate WholeRecords(crc: Checksum, records: seq<seq<Byte>>, n: nat, m: nat) {
    && m <= |records| && |WrittenLog(crc, records[..m])| <= n
    && (m < |records| ==> n < |WrittenLog(crc, records[..m + 1])|)
  }

  lemma WholeOfWritten(crc: Checksum, records: seq<seq<Byte>>, n: nat)
    ensures WholeRecords(crc, records, n, Whole(Parts(WriterLayout(), 0, records, 0), n))
  {
    var parts := Parts(WriterLayout(), 0, records, 0);
    var m := Whole(parts, n);
    WholeAt(crc, records, n, m);
    if m < |records| { WholeAt(crc, records, n, m + 1); }
  }

  lemma WholeAt(crc: Checksum, records: seq<seq<Byte>>, n: nat, m: nat)
    requires m <= |records|
    ensures m <= Whole(Parts(WriterLayout(), 0, records, 0), n) <==> |WrittenLog(crc, records[..m])| <= n
  {
    WrittenSize(crc, records[..m]);
    PartsPrefix(WriterLayout(), 0, records, 0, m);
    WholeIsMaximal(Parts(WriterLayout(), 0, records, 0), n, m);
  }

  /** So a record is among them exactly when the bytes up to its end are there. */
  lemma SyncedSurvive(crc: Checksum, records: seq<seq<Byte>>, n: nat, m: nat, s: nat)
    requires WholeRecords(crc, records, n, m) && s <= |records|
    ensures s <= m <==> |WrittenLog(crc, records[..s])| <= n
  {
    WholeAt(crc, records, n, m);
    if m < |records| { WholeAt(crc, records, n, m + 1); }
    WholeAt(crc, records, n, s);
  }

  /** Reading back any prefix of a written log gives exactly the records that lie
      wholly inside it, and never reports a corruption. */
  lemma TornTail(crc: Checksum, records: seq<seq<Byte>>, n: nat) returns (m: nat)
    requires n <= |WrittenLog(crc, records)|
    ensures WholeRecords(crc, records, n, m)
    ensures var file := WrittenLog(crc, records)[..n];
            && Advances(ParserOf(crc, file), |file|)
            && ReadAll(Pieces(ParserOf(crc, file), |file|, 0)) == AllRead(records[..m], 0)
  {
    var parts := Parts(WriterLayout(), 0, records, 0);
    m := Whole(parts, n);
    WholeOfWritten(crc, records, n);
    PartsFit(0, records, 0);
    ReadFile(crc, Joined(parts), n);
    AllPartsCarry(records);
    AssembleLog(ReplayerOf(), parts, records, n);
  }

  lemma AllPartsCarry(records: seq<seq<Byte>>)
    ensures AllCarry(Parts(WriterLayout(), 0, records, 0), records)
  {
    var parts := Parts(WriterLayout(), 0, records, 0);
    forall k: nat | k < |parts| ensures Carries(parts[k], records[k]) {
      PartsCarry(0, records, 0, k);
    }
  }

  lemma ReadFile(crc: Checksum, items: seq<Item>, n: nat)
    requires Fits(items, 0) && n <= |Bytes(RendererOf(crc), items)|
    ensures var file := Bytes(RendererOf(crc), items)[..n];
            && Advances(ParserOf(crc, file), |file|)
            && Pieces(ParserOf(crc, file), |file|, 0) == Fragments(items[..Fit(items, n)])
  {
    var file := Bytes(RendererOf(crc), items)[..n];
    IsCodec(crc, file);
    assert file[0..] == file;
    ReadLayout(ParserOf(crc, file), RendererOf(crc), crc, file, 0, items);
  }

  /** The untruncated log gives back the whole list. */
  lemma RoundTrip(crc: Checksum, records: seq<seq<Byte>>)
    ensures var file := WrittenLog(crc, records);
            && Advances(ParserOf(crc, file), |file|)
            && ReadAll(Pieces(ParserOf(crc, file), |file|, 0)) == AllRead(records, 0)
  {
    var file := WrittenLog(crc, records);
    assert file[..|file|] == file && records[..|records|] == records;
    var m := TornTail(crc, records, |file|);
    AllWhole(crc, records, m);
  }

  lemma AllWhole(crc: Checksum, records: seq<seq<Byte>>, m: nat)
    requires WholeRecords(crc, records, |WrittenLog(crc, records)|, m)
    ensures m == |records|
  {
    assert records[..|records|] == records;
    WholeAt(crc, records, |WrittenLog(crc, records)|, |records|);
    if m < |records| { WholeAt(crc, records, |WrittenLog(crc, records)|, m + 1); }
  }
}
