/** The block-fragmented log (db/log_format.h, db/log_writer.cc:34-108,
    db/log_reader.cc:189-271) as byte strings. */
module LogFormat {

  type Byte = b: int | 0 <= b < 256
  type Word = w: int | 0 <= w < 0x1_0000_0000

  /** crc32c over the type byte and the payload; only equality of checksums matters. */
  type Checksum = seq<Byte> -> Word

  const BLOCK: nat := 32768
  const HEADER: nat := 7

  // ----- checksums and fixed-width numbers -----

  const MASK_DELTA: int := 0xa282_ead8

  /** crc32c::Mask: rotate right by 15 bits and add a constant, in 32 bits */
  function Mask(c: Word): Word {
    (c / 0x8000 + (c % 0x8000) * 0x2_0000 + MASK_DELTA) % 0x1_0000_0000
  }

  function Unmask(m: Word): Word {
    var rot := (m - MASK_DELTA) % 0x1_0000_0000;
    rot / 0x2_0000 + (rot % 0x2_0000) * 0x8000
  }

  lemma Unshift(r: Word)
    ensures ((r + MASK_DELTA) % 0x1_0000_0000 - MASK_DELTA) % 0x1_0000_0000 == r
  {
    if r + MASK_DELTA < 0x1_0000_0000 {
      assert (r + MASK_DELTA) % 0x1_0000_0000 == r + MASK_DELTA;
    } else {
      assert (r + MASK_DELTA) % 0x1_0000_0000 == r + MASK_DELTA - 0x1_0000_0000;
    }
  }

  lemma Unrotate(high: nat, low: nat)
    requires high < 0x2_0000 && low < 0x8000
    ensures (high + low * 0x2_0000) / 0x2_0000 == low && (high + low * 0x2_0000) % 0x2_0000 == high
  {
  }

  lemma MaskRoundTrip(c: Word)
    ensures Unmask(Mask(c)) == c
  {
    var high, low := c / 0x8000, c % 0x8000;
    Unrotate(high, low);
    Unshift(high + low * 0x2_0000);
  }

  function Fixed32(w: Word): (s: seq<Byte>)
    ensures |s| == 4
  {
    var w1: nat := w / 0x100;
    var w2: nat := w1 / 0x100;
    var w3: nat := w2 / 0x100;
    [w % 0x100, w1 % 0x100, w2 % 0x100, w3]
  }

  function DecodeFixed32(s: seq<Byte>): (w: Word)
    requires |s| >= 4
  {
    var b0: int, b1: int, b2: int, b3: int := s[0], s[1], s[2], s[3];
    b0 + 0x100 * (b1 + 0x100 * (b2 + 0x100 * b3))
  }

  lemma Fixed32RoundTrip(w: Word, rest: seq<Byte>)
    ensures DecodeFixed32(Fixed32(w) + rest) == w
  {
  }

  // ----- one physical record -----

  datatype RecordType = Full | First | Middle | Last

  function TypeByte(t: RecordType): Byte {
    match t case Full => 1 case First => 2 case Middle => 3 case Last => 4
  }

  /** A fragment with any type byte; the length field has two bytes. */
  function Raw(crc: Checksum, kind: Byte, data: seq<Byte>): (s: seq<Byte>)
    ensures |s| == HEADER + |data|
  {
    Fixed32(Mask(crc([kind] + data))) + [|data| % 0x100, |data| / 0x100 % 0x100, kind] + data
  }

  /** EmitPhysicalRecord */
  function Physical(crc: Checksum, t: RecordType, data: seq<Byte>): (s: seq<Byte>)
    ensures |s| == HEADER + |data|
  {
    Raw(crc, TypeByte(t), data)
  }

  /** The header of doc/log_format.md: checksum and length, low byte first, and the type. */
  lemma HeaderBytes(crc: Checksum, kind: Byte, data: seq<Byte>)
    requires |data| <= 0xffff
    ensures var s := Raw(crc, kind, data);
            && s[0] + s[1] as int * 0x100 + s[2] as int * 0x1_0000 + s[3] as int * 0x100_0000 == Mask(crc([kind] + data))
            && s[4] + s[5] as int * 0x100 == |data| && s[6] == kind && s[7..] == data
  {
    var s := Raw(crc, kind, data);
    Fixed32RoundTrip(Mask(crc([kind] + data)), s[4..]);
    assert s == Fixed32(Mask(crc([kind] + data))) + s[4..];
  }

  /** Masked values, among them one with bits on either side of the rotation. */
  lemma MaskExamples()
    ensures Mask(0) == 0xa282_ead8 && Mask(1) == 0xa284_ead8 && Mask(0x8000) == 0xa282_ead9 && Mask(0xffff_ffff) == 0xa282_ead7
  {
  }

  function Zeros(n: nat): (s: seq<Byte>)
    ensures |s| == n
  {
    seq(n, i => 0)
  }

  /** How many bytes of its block follow a file position. Written without the modulus,
      which LeftIsMod brings back, so that proofs about positions stay linear. */
  function Left(pos: nat): (n: nat)
    ensures 1 <= n <= BLOCK
  {
    if pos < 32768 then 32768 - pos else Left(pos - 32768)
  }

  lemma {:induction false} LeftIsMod(pos: nat)
    ensures Left(pos) == 32768 - pos % 32768
  {
    if pos >= 32768 {
      LeftIsMod(pos - 32768);
      assert (pos - 32768) % 32768 == pos % 32768;
    }
  }

  lemma {:induction false} LeftStep(pos: nat, n: nat)
    requires n < Left(pos)
    ensures Left(pos + n) == Left(pos) - n
  {
    if pos >= 32768 { LeftStep(pos - 32768, n); }
  }

  lemma {:induction false} LeftNext(pos: nat)
    ensures Left(pos + Left(pos)) == BLOCK
  {
    if pos >= 32768 { LeftNext(pos - 32768); }
  }

  function Min(a: nat, b: nat): nat { if a < b then a else b }

  // ----- what ReadPhysicalRecord finds at a position of a file -----

  /** A return of ReadPhysicalRecord other than end of file: a dropped stretch, with or
      without a corruption report, or a fragment. */
  datatype Found = Bad(reported: bool) | Piece(kind: nat, data: seq<Byte>)

  datatype Parsed = Eof | Parsed(found: Found, next: nat)

  function BlockEnd(q: nat): (e: nat)
    ensures q < e <= q + BLOCK
  {
    q + Left(q)
  }

  /** The bytes of the current block that the file still has. */
  function Buffered(file: seq<Byte>, q: nat): seq<Byte>
    requires q <= |file|
  {
    file[q..Min(BlockEnd(q), |file|)]
  }

  function Parse(crc: Checksum, buffer: seq<Byte>, q: nat, eof: bool): (r: Parsed)
    requires |buffer| >= HEADER
    ensures r.Parsed? ==> q < r.next <= q + |buffer|
  {
    var high: int := buffer[5];
    var length: nat := buffer[4] + high * 0x100;
    if HEADER + length > |buffer| then (if eof then Eof else Parsed(Bad(true), q + |buffer|))
    else if buffer[6] == 0 && length == 0 then Parsed(Bad(false), q + |buffer|)
    else if Unmask(DecodeFixed32(buffer)) != crc(buffer[6..HEADER + length]) then Parsed(Bad(true), q + |buffer|)
    else Parsed(Piece(buffer[6], buffer[HEADER..HEADER + length]), q + HEADER + length)
  }

  /** Where the next header can be: a trailer too short for one is stepped over. */
  function Skipped(file: seq<Byte>, q: nat): (r: nat)
    requires q <= |file|
    ensures q <= r <= |file|
  {
    if |Buffered(file, q)| < HEADER && BlockEnd(q) <= |file| then BlockEnd(q) else q
  }

  function ParseAt(crc: Checksum, file: seq<Byte>, q: nat): (r: Parsed)
    requires q <= |file|
    ensures r.Parsed? ==> q < r.next <= |file|
  {
    ParseHere(crc, file, Skipped(file, q))
  }

  function ParseHere(crc: Checksum, file: seq<Byte>, q: nat): (r: Parsed)
    requires q <= |file|
    ensures r.Parsed? ==> q < r.next <= |file|
  {
    var buffer := Buffered(file, q);
    if |buffer| < HEADER then Eof else Parse(crc, buffer, q, BlockEnd(q) > |file|)
  }

  // ----- what the reader makes of the writer's bytes -----

  lemma ParseRaw(crc: Checksum, kind: Byte, data: seq<Byte>, rest: seq<Byte>, q: nat, eof: bool)
    requires |data| <= 0xffff && (kind != 0 || data != [])
    ensures Parse(crc, Raw(crc, kind, data) + rest, q, eof) == Parsed(Piece(kind, data), q + HEADER + |data|)
  {
    var buffer := Raw(crc, kind, data) + rest;
    var c := crc([kind] + data);
    assert |data| / 0x100 % 0x100 == |data| / 0x100;
    Fixed32RoundTrip(Mask(c), [|data| % 0x100, |data| / 0x100 % 0x100, kind] + data + rest);
    assert buffer == Fixed32(Mask(c)) + ([|data| % 0x100, |data| / 0x100 % 0x100, kind] + data + rest);
    MaskRoundTrip(c);
    assert buffer[6..HEADER + |data|] == [kind] + data;
  }

  /** A header that is there in full announces its length even when the payload is torn. */
  lemma ParseTorn(crc: Checksum, t: RecordType, data: seq<Byte>, buffer: seq<Byte>, q: nat)
    requires |data| <= 0xffff && HEADER <= |buffer| < HEADER + |data| && buffer <= Physical(crc, t, data)
    ensures Parse(crc, buffer, q, true) == Eof
  {
    var whole := Physical(crc, t, data);
    assert |data| / 0x100 % 0x100 == |data| / 0x100;
    assert buffer[4] == whole[4] && buffer[5] == whole[5];
  }

  /** A complete fragment at q is read back. */
  lemma PieceWhole(crc: Checksum, file: seq<Byte>, q: nat, t: RecordType, data: seq<Byte>)
    requires |data| <= 0xffff && HEADER + |data| <= Left(q) && q + HEADER + |data| <= |file|
    requires file[q..q + HEADER + |data|] == Physical(crc, t, data)
    ensures ParseAt(crc, file, q) == Parsed(Piece(TypeByte(t), data), q + HEADER + |data|)
  {
    var buffer := Buffered(file, q);
    var whole := Physical(crc, t, data);
    assert buffer == whole + buffer[|whole|..];
    ParseRaw(crc, TypeByte(t), data, buffer[|whole|..], q, BlockEnd(q) > |file|);
  }

  /** A fragment cut off by the end of the file reads as end of file. */
  lemma PieceTorn(crc: Checksum, file: seq<Byte>, q: nat, t: RecordType, data: seq<Byte>)
    requires |data| <= 0xffff && HEADER + |data| <= Left(q) && q <= |file| < q + HEADER + |data|
    requires file[q..] <= Physical(crc, t, data)
    ensures ParseAt(crc, file, q) == Eof
  {
    var buffer := Buffered(file, q);
    assert buffer == file[q..];
    if |buffer| >= HEADER { ParseTorn(crc, t, data, buffer, q); }
  }

  lemma TrailerSkipped(crc: Checksum, file: seq<Byte>, q: nat)
    requires Left(q) < HEADER && q <= |file|
    ensures BlockEnd(q) <= |file| ==> ParseAt(crc, file, q) == ParseAt(crc, file, BlockEnd(q))
    ensures BlockEnd(q) > |file| ==> ParseAt(crc, file, q) == Eof
  {
    if BlockEnd(q) <= |file| { SkippedTo(file, q); }
  }

  lemma SkippedTo(file: seq<Byte>, q: nat)
    requires Left(q) < HEADER && q <= |file| && BlockEnd(q) <= |file|
    ensures Skipped(file, q) == BlockEnd(q) == Skipped(file, BlockEnd(q))
  {
    LeftNext(q);
  }
}
