/** log::Writer and log::Reader (db/log_writer.cc:34-108, db/log_reader.cc:56-174,
    189-271). The reader starts at offset 0, so the initial-offset and resync code
    paths are never taken. */
module LogIo {
  import opened LogFormat
  import opened LogLayout
  import opened LogFile

  // ----- the writer -----

  lemma LayoutAtBlockEnd(data: seq<Byte>, begin: bool)
    ensures Layout(BLOCK, data, begin) == Layout(0, data, begin)
  {
    assert Trailer(BLOCK) + Layout(0, data, begin) == Layout(0, data, begin);
  }

  /** The bytes one AddRecord call still has to append. */
  function Rest(crc: Checksum, off: nat, data: seq<Byte>, begin: bool): seq<Byte>
    requires off <= BLOCK
  {
    Bytes(RendererOf(crc), Layout(off, data, begin))
  }

  lemma RestSkip(crc: Checksum, off: nat, data: seq<Byte>, begin: bool)
    requires off <= BLOCK && BLOCK - off < HEADER
    ensures Rest(crc, off, data, begin) == Zeros(BLOCK - off) + Rest(crc, 0, data, begin)
  {
    var render := RendererOf(crc);
    if off == BLOCK {
      LayoutAtBlockEnd(data, begin);
      assert Zeros(0) + Rest(crc, 0, data, begin) == Rest(crc, 0, data, begin);
    } else {
      var items := [Pad(BLOCK - off)] + Layout(0, data, begin);
      assert items[1..] == Layout(0, data, begin);
    }
  }

  lemma RestEmit(crc: Checksum, off: nat, data: seq<Byte>, begin: bool)
    requires off + HEADER <= BLOCK
    ensures var n := Cut(off, data);
            var end := n == |data|;
            Rest(crc, off, data, begin) == Physical(crc, FragmentType(begin, end), data[..n])
                                           + if end then [] else Rest(crc, off + HEADER + n, data[n..], false)
  {
    var n := Cut(off, data);
    var items := Layout(off, data, begin);
    if n == |data| {
      assert data[..n] == data && items == [Frag(FragmentType(begin, true), data)];
      assert Bytes(RendererOf(crc), items[1..]) == [];
    } else {
      assert items[1..] == Layout(off + HEADER + n, data[n..], false);
    }
  }

  class Writer {
    const crc: Checksum
    var dest: seq<Byte>
    var blockOffset: nat

    predicate Valid()
      reads this
    {
      Agrees(blockOffset, |dest|)
    }

    constructor (crc: Checksum, existing: seq<Byte>)
      ensures Valid() && dest == existing && this.crc == crc
    {
      this.crc, dest, blockOffset := crc, existing, |existing| % 32768;
      LeftIsMod(|existing|);
    }

    method EmitPhysicalRecord(t: RecordType, data: seq<Byte>)
      requires Valid() && blockOffset + HEADER + |data| <= BLOCK
      modifies this
      ensures Valid() && blockOffset == old(blockOffset) + HEADER + |data|
      ensures dest == old(dest) + Physical(crc, t, data)
    {
      AgreesNext(blockOffset, |dest|, HEADER + |data|);
      dest := dest + Physical(crc, t, data);
      blockOffset := blockOffset + HEADER + |data|;
    }

    /** Fills the rest of a block that has no room for a header. */
    method FinishBlock()
      requires Valid() && BLOCK - blockOffset < HEADER
      modifies this
      ensures Valid() && blockOffset == 0 && dest == old(dest) + Zeros(BLOCK - old(blockOffset))
    {
      AgreesNext(blockOffset, |dest|, BLOCK - blockOffset);
      dest := dest + Zeros(BLOCK - blockOffset);
      blockOffset := 0;
    }

    /** One round of the fragmentation loop. */
    method AddFragment(left: seq<Byte>, begin: bool) returns (n: nat)
      requires Valid()
      modifies this
      ensures Valid() && n <= |left|
      ensures old(dest) + Rest(crc, old(blockOffset), left, begin) ==
              dest + if n == |left| then [] else Rest(crc, blockOffset, left[n..], false)
      ensures n == 0 && n < |left| ==> Rank(blockOffset) < Rank(old(blockOffset))
    {
      ghost var dest0, off0 := dest, blockOffset;
      if BLOCK - blockOffset < HEADER {
        FinishBlock();
        SkipAt(crc, dest0, off0, left, begin);
      }
      var avail := BLOCK - blockOffset - HEADER;
      n := if |left| < avail then |left| else avail;
      var end := |left| == n;
      EmitAt(crc, dest, blockOffset, left, begin, n);
      EmitPhysicalRecord(FragmentType(begin, end), left[..n]);
    }

    /** Appends exactly the layout of the record at the end of the file. */
    method AddRecord(slice: seq<Byte>)
      requires Valid()
      modifies this
      ensures Valid()
      ensures dest == old(dest) + Bytes(RendererOf(crc), WriterLayout()(|old(dest)|, slice))
    {
      var left := slice;
      var begin := true;
      var done := false;
      StartOffset(crc, blockOffset, |dest|, slice);
      ghost var target := dest + Rest(crc, blockOffset, slice, true);
      while !done
        invariant Valid()
        invariant target == dest + if done then [] else Rest(crc, blockOffset, left, begin)
        decreases !done, |left|, Rank(blockOffset)
      {
        var n := AddFragment(left, begin);
        done := n == |left|;
        left := left[n..];
        begin := false;
      }
    }
  }

  lemma SkipAt(crc: Checksum, dest: seq<Byte>, off: nat, left: seq<Byte>, begin: bool)
    requires off <= BLOCK && BLOCK - off < HEADER
    ensures dest + Rest(crc, off, left, begin) == dest + Zeros(BLOCK - off) + Rest(crc, 0, left, begin)
  {
    RestSkip(crc, off, left, begin);
    Assoc(dest, Zeros(BLOCK - off), Rest(crc, 0, left, begin));
  }

  lemma EmitAt(crc: Checksum, dest: seq<Byte>, off: nat, left: seq<Byte>, begin: bool, n: nat)
    requires off + HEADER <= BLOCK && n == Cut(off, left)
    ensures dest + Rest(crc, off, left, begin) ==
            dest + Physical(crc, FragmentType(begin, n == |left|), left[..n])
            + if n == |left| then [] else Rest(crc, off + HEADER + n, left[n..], false)
  {
    RestEmit(crc, off, left, begin);
    Assoc(dest, Physical(crc, FragmentType(begin, n == |left|), left[..n]),
          if n == |left| then [] else Rest(crc, off + HEADER + n, left[n..], false));
  }

  lemma Assoc(a: seq<Byte>, b: seq<Byte>, c: seq<Byte>)
    ensures a + (b + c) == a + b + c
  {
  }

  lemma StartOffset(crc: Checksum, off: nat, pos: nat, slice: seq<Byte>)
    requires Agrees(off, pos)
    ensures Rest(crc, off, slice, true) == Bytes(RendererOf(crc), WriterLayout()(pos, slice))
  {
    LayoutAtBlockEnd(slice, true);
  }

  /** Record by record, the writer produces WrittenLog. */
  lemma {:induction false} PartsGrow(layout: Layouter, pos: nat, records: seq<seq<Byte>>, k: nat, r: seq<Byte>)
    requires k <= |records|
    ensures Parts(layout, pos, records + [r], k) == Parts(layout, pos, records, k) + [layout(End(layout, pos, records, k), r)]
    decreases |records| - k
  {
    if k < |records| {
      assert (records + [r])[k] == records[k];
      PartsGrow(layout, pos + SizeAll(layout(pos, records[k])), records, k + 1, r);
    }
  }

  /** Where the log of the records from k on ends. */
  function End(layout: Layouter, pos: nat, records: seq<seq<Byte>>, k: nat): nat
    requires k <= |records|
    decreases |records| - k
  {
    if k == |records| then pos else End(layout, pos + SizeAll(layout(pos, records[k])), records, k + 1)
  }

  function Total(parts: seq<seq<Item>>): nat {
    if parts == [] then 0 else SizeAll(parts[0]) + Total(parts[1..])
  }

  lemma TotalCons(here: seq<Item>, rest: seq<seq<Item>>)
    ensures Total([here] + rest) == SizeAll(here) + Total(rest)
  {
    assert ([here] + rest)[1..] == rest;
  }

  lemma {:induction false} TotalIs(parts: seq<seq<Item>>)
    ensures Total(parts) == SizeAll(Joined(parts))
  {
    if parts != [] {
      TotalIs(parts[1..]);
      SizeConcat(parts[0], Joined(parts[1..]));
    }
  }

  lemma {:induction false} EndIs(layout: Layouter, pos: nat, records: seq<seq<Byte>>, k: nat)
    requires k <= |records|
    ensures End(layout, pos, records, k) == pos + Total(Parts(layout, pos, records, k))
    decreases |records| - k
  {
    if k < |records| {
      var here := layout(pos, records[k]);
      var p := pos + SizeAll(here);
      EndIs(layout, p, records, k + 1);
      TotalCons(here, Parts(layout, p, records, k + 1));
    }
  }

  lemma {:induction false} JoinedGrows(parts: seq<seq<Item>>, last: seq<Item>)
    ensures Joined(parts + [last]) == Joined(parts) + last
  {
    if parts == [] {
      assert [last][1..] == [] && parts + [last] == [last];
    } else {
      assert (parts + [last])[1..] == parts[1..] + [last];
      JoinedGrows(parts[1..], last);
      AssocItems(parts[0], Joined(parts[1..]), last);
    }
  }

  lemma AssocItems(a: seq<Item>, b: seq<Item>, c: seq<Item>)
    ensures a + (b + c) == a + b + c
  {
  }

  lemma WriterGrows(crc: Checksum, records: seq<seq<Byte>>, r: seq<Byte>)
    ensures var log := WrittenLog(crc, records);
            WrittenLog(crc, records + [r]) == log + Bytes(RendererOf(crc), WriterLayout()(|log|, r))
  {
    var parts := Parts(WriterLayout(), 0, records, 0);
    var items := Joined(parts);
    WrittenSize(crc, records);
    PartsGrow(WriterLayout(), 0, records, 0, r);
    EndIs(WriterLayout(), 0, records, 0);
    TotalIs(parts);
    JoinedGrows(parts, WriterLayout()(SizeAll(items), r));
    BytesConcat(RendererOf(crc), items, WriterLayout()(SizeAll(items), r));
  }

  // ----- the reader -----

  datatype Physically = PhysicalEof | PhysicalRecord(found: Found)

  /** The header and checksum tests on a buffer that has room for a header. */
  method ParseBuffer(crc: Checksum, buffer: seq<Byte>, q: nat, eof: bool) returns (p: Parsed)
    requires |buffer| >= HEADER
    ensures p == Parse(crc, buffer, q, eof)
  {
    var high: int := buffer[5];
    var length: nat := buffer[4] + high * 0x100;
    if HEADER + length > |buffer| {
      if !eof { return Parsed(Bad(true), q + |buffer|); }
      return Eof;
    }
    if buffer[6] == 0 && length == 0 {
      return Parsed(Bad(false), q + |buffer|);
    }
    if Unmask(DecodeFixed32(buffer)) != crc(buffer[6..HEADER + length]) {
      return Parsed(Bad(true), q + |buffer|);
    }
    p := Parsed(Piece(buffer[6], buffer[HEADER..HEADER + length]), q + HEADER + length);
  }

  /** The switch on the record type. */
  method Accept(found: Found, inFragment: bool, scratch: seq<Byte>) returns (t: Taken)
    ensures t == Take(found, inFragment, scratch)
  {
    var n := 0;
    match found {
      case Bad(reported) =>
        if reported { n := n + 1; }
        if inFragment { return Go(false, [], n + 1); }
        return Go(false, scratch, n);
      case Piece(kind, fragment) =>
        if kind == 1 {
          if inFragment && scratch != [] { n := n + 1; }
          return Return(fragment, n);
        } else if kind == 2 {
          if inFragment && scratch != [] { n := n + 1; }
          return Go(true, fragment, n);
        } else if kind == 3 {
          if !inFragment { return Go(false, scratch, 1); }
          return Go(true, scratch + fragment, 0);
        } else if kind == 4 {
          if !inFragment { return Go(false, scratch, 1); }
          return Return(scratch + fragment, 0);
        } else if kind == K_EOF {
          return Stop(0);
        } else if kind == K_BAD_RECORD {
          if inFragment { return Go(false, [], 1); }
          return Go(false, scratch, 0);
        } else {
          return Go(false, [], 1);
        }
    }
  }

  /** The buffer is the unread part of the last block read; eof is set exactly when that
      read came up short. */
  ghost predicate BufferOk(file: seq<Byte>, filePos: nat, buffer: seq<Byte>, eof: bool) {
    && |buffer| <= filePos <= |file| && buffer == file[filePos - |buffer|..filePos]
    && if eof then filePos == |file| && |buffer| < Left(filePos - |buffer|)
       else Left(filePos) == BLOCK && (|buffer| > 0 ==> Left(filePos - |buffer|) == |buffer|)
  }

  lemma StartOk(file: seq<Byte>)
    ensures BufferOk(file, 0, [], false)
  {
  }

  lemma ConsumeOk(file: seq<Byte>, filePos: nat, buffer: seq<Byte>, eof: bool, k: nat)
    requires BufferOk(file, filePos, buffer, eof) && k <= |buffer|
    ensures BufferOk(file, filePos, buffer[k..], eof)
  {
    assert buffer[k..] == file[filePos - |buffer[k..]|..filePos];
    if eof || k < |buffer| { LeftStep(filePos - |buffer|, k); }
  }

  lemma NextBlockOk(file: seq<Byte>, filePos: nat, n: nat)
    requires filePos <= |file| && Left(filePos) == BLOCK && n == Min(|file| - filePos, BLOCK)
    ensures BufferOk(file, filePos + n, file[filePos..filePos + n], n < BLOCK)
  {
    LeftNext(filePos);
  }

  class Reader {
    const crc: Checksum
    const file: seq<Byte>
    ghost const parse: Parser
    var filePos: nat        // how far the file has been read
    var buffer: seq<Byte>
    var eof: bool
    var reports: nat        // corruption reports so far

    ghost predicate Valid()
      reads this
    {
      BufferOk(file, filePos, buffer, eof) && Codec(parse, RendererOf(crc), crc, file)
    }

    ghost function Position(): nat
      requires Valid()
      reads this
    {
      filePos - |buffer|
    }

    /** The physical records not yet returned. */
    ghost function Pending(): seq<Found>
      requires Valid()
      reads this
    {
      Pieces(parse, |file|, Position())
    }

    constructor (crc: Checksum, file: seq<Byte>)
      ensures Valid() && this.crc == crc && this.file == file && reports == 0
      ensures parse == ParserOf(crc, file) && Position() == 0
    {
      this.crc, this.file, parse := crc, file, ParserOf(crc, file);
      filePos, buffer, eof, reports := 0, [], false, 0;
      IsCodec(crc, file);
      StartOk(file);
    }

    /** Reads blocks until a header is there or the file is used up. */
    method Fill() returns (more: bool)
      requires Valid()
      modifies this
      ensures Valid() && reports == old(reports)
      ensures Pending() == old(Pending())
      ensures if more then |buffer| >= HEADER else Pending() == []
    {
      while |buffer| < HEADER
        invariant Valid() && reports == old(reports)
        invariant Pending() == old(Pending())
        decreases !eof, |file| - filePos
      {
        if eof {
          AtEof(parse, crc, file, Position());
          return false;
        }
        Refill(parse, crc, file, filePos, |buffer|);
        var n := Min(|file| - filePos, BLOCK);
        NextBlockOk(file, filePos, n);
        buffer := file[filePos..filePos + n];
        filePos := filePos + n;
        eof := n < BLOCK;
      }
      more := true;
    }

    /** buffer_.remove_prefix */
    method Consume(k: nat)
      requires Valid() && k <= |buffer|
      modifies this
      ensures Valid() && Position() == old(Position()) + k && reports == old(reports)
    {
      ConsumeOk(file, filePos, buffer, eof, k);
      buffer := buffer[k..];
    }

    method ReadPhysicalRecord() returns (r: Physically)
      requires Valid()
      modifies this
      ensures Valid() && reports == old(reports)
      ensures r.PhysicalEof? ==> old(Pending()) == []
      ensures r.PhysicalRecord? ==> old(Pending()) == [r.found] + Pending()
    {
      var more := Fill();
      if more {
        r := TakeRecord();
      } else {
        Consume(|buffer|);
        r := PhysicalEof;
      }
    }

    /** Parses the record at the head of the buffer and removes it. */
    method TakeRecord() returns (r: Physically)
      requires Valid() && |buffer| >= HEADER
      modifies this
      ensures Valid() && reports == old(reports)
      ensures r.PhysicalEof? ==> old(Pending()) == []
      ensures r.PhysicalRecord? ==> old(Pending()) == [r.found] + Pending()
    {
      var q := filePos - |buffer|;
      InBuffer(parse, crc, file, filePos, buffer, eof);
      NextPiece(parse, |file|, q);
      var p := ParseBuffer(crc, buffer, q, eof);
      match p {
        case Eof =>
          Consume(|buffer|);
          r := PhysicalEof;
        case Parsed(found, next) =>
          Consume(next - q);
          r := PhysicalRecord(found);
      }
    }

    /** Returns the next logical record, or false at the end of the log. */
    method ReadRecord() returns (ok: bool, record: seq<Byte>)
      requires Valid()
      modifies this
      ensures Valid()
      ensures var a := Assemble(old(Pending()), false, []);
              && reports == old(reports) + a.reports
              && (ok <==> a.Got?)
              && (ok ==> record == a.record && Pending() == a.rest)
    {
      var scratch: seq<Byte> := [];
      var inFragment := false;
      ghost var a := Assemble(Pending(), false, []);
      while true
        invariant Valid() && old(reports) <= reports
        invariant a == Reported(Assemble(Pending(), inFragment, scratch), reports - old(reports))
        decreases |Pending()|
      {
        ghost var ps := Pending();
        var r := ReadPhysicalRecord();
        if r.PhysicalEof? { return false, []; }
        assert ps[0] == r.found && ps[1..] == Pending();
        var t := Accept(r.found, inFragment, scratch);
        reports := reports + t.reports;
        if t.Return? { return true, t.record; }
        if t.Stop? { return false, []; }
        inFragment, scratch := t.inFragment, t.scratch;
      }
      return false, [];
    }
  }

  /** Dropping what is left of a full block does not change what comes next. */
  lemma Refill(parse: Parser, crc: Checksum, file: seq<Byte>, filePos: nat, n: nat)
    requires Codec(parse, RendererOf(crc), crc, file)
    requires n <= filePos <= |file| && n < HEADER && (n > 0 ==> Left(filePos - n) == n)
    ensures Pieces(parse, |file|, filePos - n) == Pieces(parse, |file|, filePos)
  {
    if n > 0 {
      assert Probe(filePos - n) && Probe(filePos);
      TrailerSkipped(crc, file, filePos - n);
    }
  }

  lemma AtEof(parse: Parser, crc: Checksum, file: seq<Byte>, q: nat)
    requires Codec(parse, RendererOf(crc), crc, file)
    requires q <= |file| < BlockEnd(q) && |file| - q < HEADER
    ensures Pieces(parse, |file|, q) == []
  {
    assert Probe(q);
  }

  lemma InBuffer(parse: Parser, crc: Checksum, file: seq<Byte>, filePos: nat, buffer: seq<Byte>, eof: bool)
    requires Codec(parse, RendererOf(crc), crc, file)
    requires BufferOk(file, filePos, buffer, eof) && HEADER <= |buffer|
    ensures parse(filePos - |buffer|) == Parse(crc, buffer, filePos - |buffer|, eof)
  {
    var q := filePos - |buffer|;
    assert Probe(q);
    assert Buffered(file, q) == buffer;
  }
}
