/** Reading a log of arbitrary bytes (db/log_reader.cc:56-271): what comes back was written
    there as a record, and damage costs no record it does not touch. */
module LogReader {
  import opened LogFormat
  import opened LogLayout
  import opened LogFile

  // ----- fragments -----

  lemma MaskOnto(m: Word)
    ensures Mask(Unmask(m)) == m
  {
    var rot := (m - MASK_DELTA) % 0x1_0000_0000;
    Unrotated(rot);
    Reshift(m);
  }

  lemma Unrotated(rot: Word)
    ensures var c := rot / 0x2_0000 + (rot % 0x2_0000) * 0x8000;
            c / 0x8000 == rot % 0x2_0000 && c % 0x8000 == rot / 0x2_0000
  {
  }

  lemma Reshift(m: Word)
    ensures ((m - MASK_DELTA) % 0x1_0000_0000 + MASK_DELTA) % 0x1_0000_0000 == m
  {
    if m >= MASK_DELTA {
      assert (m - MASK_DELTA) % 0x1_0000_0000 == m - MASK_DELTA;
    } else {
      assert (m - MASK_DELTA) % 0x1_0000_0000 == m - MASK_DELTA + 0x1_0000_0000;
    }
  }

  lemma Fixed32Onto(s: seq<Byte>)
    requires |s| >= 4
    ensures Fixed32(DecodeFixed32(s)) == s[..4]
  {
    var b0: int, b1: int, b2: int, b3: int := s[0], s[1], s[2], s[3];
    var w := DecodeFixed32(s);
    assert w / 0x100 == b1 + 0x100 * (b2 + 0x100 * b3);
    assert w / 0x100 / 0x100 == b2 + 0x100 * b3;
  }

  lemma LengthBytes(low: Byte, high: Byte)
    ensures (low + high * 0x100) % 0x100 == low && (low + high * 0x100) / 0x100 % 0x100 == high
  {
  }

  lemma Rejoin(buffer: seq<Byte>, n: nat)
    requires HEADER + n <= |buffer|
    ensures buffer[..4] + [buffer[4], buffer[5], buffer[6]] + buffer[HEADER..HEADER + n] == buffer[..HEADER + n]
    ensures buffer[6..HEADER + n] == [buffer[6]] + buffer[HEADER..HEADER + n]
  {
  }

  /** Only bytes whose checksum is right are taken for a fragment. */
  lemma ParsedIsRaw(crc: Checksum, buffer: seq<Byte>, n: nat, kind: Byte, data: seq<Byte>)
    requires HEADER + n <= |buffer| && n == buffer[4] + buffer[5] as int * 0x100
    requires kind == buffer[6] && data == buffer[HEADER..HEADER + n]
    requires Unmask(DecodeFixed32(buffer)) == crc(buffer[6..HEADER + n])
    ensures Raw(crc, kind, data) == buffer[..HEADER + n]
  {
    Rejoin(buffer, n);
    MaskOnto(DecodeFixed32(buffer));
    Fixed32Onto(buffer);
    LengthBytes(buffer[4], buffer[5]);
  }

  lemma ParsedPiece(crc: Checksum, buffer: seq<Byte>, q: nat, eof: bool)
    requires |buffer| >= HEADER && Parse(crc, buffer, q, eof).Parsed? && Parse(crc, buffer, q, eof).found.Piece?
    ensures var r := Parse(crc, buffer, q, eof);
            && r.found.kind < 0x100 && |r.found.data| <= 0xffff && r.next == q + HEADER + |r.found.data|
            && Raw(crc, r.found.kind, r.found.data) <= buffer
  {
    var high: int := buffer[5];
    var n: nat := buffer[4] + high * 0x100;
    ParsedIsRaw(crc, buffer, n, buffer[6], buffer[HEADER..HEADER + n]);
  }

  /** The fragment lies in the file from p on, inside one block. */
  ghost predicate Stored(crc: Checksum, file: seq<Byte>, p: nat, kind: nat, data: seq<Byte>) {
    && kind < 0x100 && |data| <= 0xffff && HEADER + |data| <= Left(p) && p + HEADER + |data| <= |file|
    && file[p..p + HEADER + |data|] == Raw(crc, kind, data)
  }

  lemma BufferedSlice(file: seq<Byte>, q: nat, n: nat)
    requires q <= |file|
    ensures n <= |Buffered(file, q)| <==> n <= Left(q) && q + n <= |file|
    ensures n <= |Buffered(file, q)| ==> Buffered(file, q)[..n] == file[q..q + n]
  {
  }

  lemma StoredIsFound(crc: Checksum, file: seq<Byte>, q: nat, kind: nat, data: seq<Byte>)
    requires Stored(crc, file, q, kind, data) && (kind != 0 || data != [])
    ensures ParseHere(crc, file, q) == Parsed(Piece(kind, data), q + HEADER + |data|)
  {
    var buffer, raw := Buffered(file, q), Raw(crc, kind, data);
    BufferedSlice(file, q, |raw|);
    assert buffer == raw + buffer[|raw|..];
    ParseRaw(crc, kind, data, buffer[|raw|..], q, BlockEnd(q) > |file|);
  }

  lemma FoundIsStored(crc: Checksum, file: seq<Byte>, q: nat)
    requires q <= |file| && ParseHere(crc, file, q).Parsed? && ParseHere(crc, file, q).found.Piece?
    ensures var r := ParseHere(crc, file, q); Stored(crc, file, q, r.found.kind, r.found.data)
  {
    var buffer, r := Buffered(file, q), ParseHere(crc, file, q);
    ParsedPiece(crc, buffer, q, BlockEnd(q) > |file|);
    BufferedSlice(file, q, HEADER + |r.found.data|);
  }

  /** At a position ReadPhysicalRecord returns a fragment exactly if one is stored there, in
      full and with the right checksum. */
  lemma FoundIffStored(crc: Checksum, file: seq<Byte>, q: nat, kind: nat, data: seq<Byte>)
    requires q <= |file| && (kind != 0 || data != [])
    ensures ParseHere(crc, file, q) == Parsed(Piece(kind, data), q + HEADER + |data|) <==> Stored(crc, file, q, kind, data)
  {
    if Stored(crc, file, q, kind, data) { StoredIsFound(crc, file, q, kind, data); }
    if ParseHere(crc, file, q) == Parsed(Piece(kind, data), q + HEADER + |data|) { FoundIsStored(crc, file, q); }
  }

  // ----- records -----

  /** None of the first m carries the type value that stands for the end of the file. */
  predicate GoesOn(ps: seq<Found>, m: nat) {
    m <= |ps| && forall i :: 0 <= i < m && ps[i].Piece? ==> ps[i].kind != K_EOF
  }

  /** ps[k..m] are the fragments of a record, one after the other. */
  ghost predicate Intact(ps: seq<Found>, k: nat, m: nat, record: seq<Byte>) {
    k < m <= |ps| && Chain(ps[k..m], record, true)
  }

  /** The fragments up to m end a record of which scratch is the beginning. */
  ghost predicate Ends(ps: seq<Found>, m: nat, scratch: seq<Byte>, record: seq<Byte>) {
    0 < m <= |ps| && exists tail :: Chain(ps[..m], tail, false) && record == scratch + tail
  }

  ghost predicate Comes(ps: seq<Found>, inFragment: bool, scratch: seq<Byte>, a: Answer, k: nat, m: nat) {
    && a.Got? && GoesOn(ps, m) && a.rest == ps[m..]
    && (Intact(ps, k, m, a.record) || (inFragment && Ends(ps, m, scratch, a.record)))
  }

  lemma IntactLater(ps: seq<Found>, k: nat, m: nat, record: seq<Byte>)
    requires ps != []
    ensures Intact(ps[1..], k, m, record) <==> Intact(ps, k + 1, m + 1, record)
  {
    if k < m <= |ps| - 1 { assert ps[1..][k..m] == ps[k + 1..m + 1]; }
  }

  lemma ChainMore(ps: seq<Found>, m: nat, part: seq<Byte>, tail: seq<Byte>, begin: bool)
    requires ps != [] && ps[0] == PieceOf(begin, false, part) && m <= |ps| - 1 && Chain(ps[1..][..m], tail, false)
    ensures Chain(ps[..m + 1], part + tail, begin)
  {
    var data := part + tail;
    assert data[..|part|] == part && data[|part|..] == tail;
    ChainCons(ps[1..][..m], data, begin, |part|);
    assert ps[..m + 1] == [ps[0]] + ps[1..][..m];
  }

  /** A first fragment begins a record, a middle one carries it on. */
  lemma EndsEarlier(ps: seq<Found>, m: nat, scratch: seq<Byte>, record: seq<Byte>, part: seq<Byte>, begin: bool)
    requires ps != [] && ps[0] == PieceOf(begin, false, part) && Ends(ps[1..], m, if begin then part else scratch + part, record)
    ensures begin ==> Intact(ps, 0, m + 1, record)
    ensures !begin ==> Ends(ps, m + 1, scratch, record)
  {
    var tail :| Chain(ps[1..][..m], tail, false) && record == (if begin then part else scratch + part) + tail;
    ChainMore(ps, m, part, tail, begin);
    assert ps[0..m + 1] == ps[..m + 1];
    assert scratch + part + tail == scratch + (part + tail);
  }

  lemma OneFragment(ps: seq<Found>, data: seq<Byte>)
    requires ps != []
    ensures ps[0] == PieceOf(true, true, data) ==> Intact(ps, 0, 1, data)
    ensures forall scratch :: ps[0] == PieceOf(false, true, data) ==> Ends(ps, 1, scratch, scratch + data)
  {
    assert ps[0..1] == [ps[0]] && ps[..1] == [ps[0]];
    if ps[0] == PieceOf(false, true, data) { assert Chain(ps[..1], data, false); }
  }

  /** A record that is returned is the data of fragments that follow each other: none is
      put together across a bad stretch. */
  lemma {:induction false} ReturnedIsIntact(ps: seq<Found>, inFragment: bool, scratch: seq<Byte>) returns (k: nat, m: nat)
    requires Assemble(ps, inFragment, scratch).Got?
    ensures Comes(ps, inFragment, scratch, Assemble(ps, inFragment, scratch), k, m)
    decreases |ps|
  {
    match Take(ps[0], inFragment, scratch)
    case Return(record, n) =>
      k, m := 0, 1;
      OneFragment(ps, ps[0].data);
    case Go(inFragment', scratch', n) =>
      var k', m' := ReturnedIsIntact(ps[1..], inFragment', scratch');
      var a := Assemble(ps[1..], inFragment', scratch');
      k, m := k' + 1, m' + 1;
      IntactLater(ps, k', m', a.record);
      if !Intact(ps[1..], k', m', a.record) {
        k := 0;
        EndsEarlier(ps, m', scratch, a.record, ps[0].data, ps[0].kind == 2);
      }
  }

  /** Whatever the reader was in the middle of, an intact record is returned, or is still to
      come when an earlier one is. */
  lemma {:induction false} IntactIsReached(ps: seq<Found>, inFragment: bool, scratch: seq<Byte>, k: nat, m: nat, record: seq<Byte>)
    requires GoesOn(ps, m) && Intact(ps, k, m, record)
    ensures var a := Assemble(ps, inFragment, scratch);
            && a.Got? && ((a.record == record && a.rest == ps[m..]) || exists j: nat :: j <= k && a.rest == ps[j..])
    decreases |ps|
  {
    if k == 0 {
      StartsAnew(ps, inFragment, scratch, m, record);
    } else {
      IntactLater(ps, k - 1, m - 1, record);
      if Take(ps[0], inFragment, scratch).Go? {
        var t := Take(ps[0], inFragment, scratch);
        IntactIsReached(ps[1..], t.inFragment, t.scratch, k - 1, m - 1, record);
        var a := Assemble(ps[1..], t.inFragment, t.scratch);
        if !(a.record == record && a.rest == ps[1..][m - 1..]) {
          var j: nat :| j <= k - 1 && a.rest == ps[1..][j..];
          assert a.rest == ps[j + 1..];
        }
      }
    }
  }

  /** A full or a first fragment starts a record whatever came before. */
  lemma StartsAnew(ps: seq<Found>, inFragment: bool, scratch: seq<Byte>, m: nat, record: seq<Byte>)
    requires Intact(ps, 0, m, record)
    ensures var a := Assemble(ps, inFragment, scratch); a.Got? && a.record == record && a.rest == ps[m..]
  {
    var fs := ps[..m];
    assert ps[0..m] == fs && ps == fs + ps[m..];
    AssembleWhole(fs, record, true, [], ps[m..]);
    SameAfterStart(ps, inFragment, scratch);
  }

  lemma SameAfterStart(ps: seq<Found>, inFragment: bool, scratch: seq<Byte>)
    requires ps != [] && ps[0].Piece? && (ps[0].kind == 1 || ps[0].kind == 2)
    ensures var a, b := Assemble(ps, inFragment, scratch), Assemble(ps, false, []);
            a.Got? == b.Got? && (a.Got? ==> a.record == b.record && a.rest == b.rest)
  {
  }

  // ----- the whole log -----

  ghost predicate HasIntact(ps: seq<Found>, record: seq<Byte>) {
    exists k, m :: Intact(ps, k, m, record) && GoesOn(ps, m)
  }

  lemma IntactSuffix(ps: seq<Found>, j: nat, k: nat, m: nat, record: seq<Byte>)
    requires j <= |ps|
    ensures Intact(ps[j..], k, m, record) <==> Intact(ps, k + j, m + j, record)
  {
    if k < m <= |ps| - j { assert ps[j..][k..m] == ps[k + j..m + j]; }
  }

  lemma GoesOnLater(ps: seq<Found>, j: nat, m: nat)
    requires j <= |ps| && GoesOn(ps, j)
    ensures GoesOn(ps[j..], m) <==> GoesOn(ps, j + m)
  {
    if GoesOn(ps, j + m) {
      forall i | 0 <= i < m && ps[j..][i].Piece? ensures ps[j..][i].kind != K_EOF {
        assert ps[j..][i] == ps[j + i];
      }
    } else if GoesOn(ps[j..], m) {
      forall i | 0 <= i < j + m && ps[i].Piece? ensures ps[i].kind != K_EOF {
        if i >= j { assert ps[i] == ps[j..][i - j]; }
      }
    }
  }

  lemma {:induction false} AllReturnedAreIntact(ps: seq<Found>, record: seq<Byte>)
    requires record in ReadAll(ps).records
    ensures HasIntact(ps, record)
    decreases |ps|
  {
    var a := Assemble(ps, false, []);
    var k, m := ReturnedIsIntact(ps, false, []);
    if record != a.record {
      AllReturnedAreIntact(a.rest, record);
      var k': nat, m': nat :| Intact(a.rest, k', m', record) && GoesOn(a.rest, m');
      IntactSuffix(ps, m, k', m', record);
      GoesOnLater(ps, m, m');
    }
  }

  lemma {:induction false} AllIntactAreReturned(ps: seq<Found>, k: nat, m: nat, record: seq<Byte>)
    requires GoesOn(ps, m) && Intact(ps, k, m, record)
    ensures record in ReadAll(ps).records
    decreases |ps|
  {
    IntactIsReached(ps, false, [], k, m, record);
    var a := Assemble(ps, false, []);
    if a.record != record {
      var j: nat :| j <= k && a.rest == ps[j..];
      IntactSuffix(ps, j, k - j, m - j, record);
      GoesOnLater(ps, j, m - j);
      AllIntactAreReturned(a.rest, k - j, m - j, record);
    }
  }

  /** Reading any stream of fragments and bad stretches to the end returns exactly the
      records whose fragments are all there, one after the other, and that no fragment
      taken for the end of the file comes before. */
  lemma ReadsTheIntact(ps: seq<Found>, record: seq<Byte>)
    ensures record in ReadAll(ps).records <==> HasIntact(ps, record)
  {
    if record in ReadAll(ps).records { AllReturnedAreIntact(ps, record); }
    if HasIntact(ps, record) {
      var k: nat, m: nat :| Intact(ps, k, m, record) && GoesOn(ps, m);
      AllIntactAreReturned(ps, k, m, record);
    }
  }

  // ----- nothing is lost silently -----

  /** Reading to the end, one physical record at a time. */
  function ReadOn(ps: seq<Found>, inFragment: bool, scratch: seq<Byte>): AllRead
    decreases |ps|
  {
    if ps == [] then AllRead([], 0)
    else
      match Take(ps[0], inFragment, scratch)
      case Return(record, n) =>
        var more := ReadOn(ps[1..], false, []);
        AllRead([record] + more.records, n + more.reports)
      case Stop(n) => AllRead([], n)
      case Go(inFragment', scratch', n) =>
        var more := ReadOn(ps[1..], inFragment', scratch');
        AllRead(more.records, n + more.reports)
  }

  lemma {:induction false} ReadOnIs(ps: seq<Found>, inFragment: bool, scratch: seq<Byte>)
    ensures ReadOn(ps, inFragment, scratch) ==
            match Assemble(ps, inFragment, scratch)
            case Done(reports) => AllRead([], reports)
            case Got(record, rest, reports) => AllRead([record] + ReadAll(rest).records, reports + ReadAll(rest).reports)
    decreases |ps|
  {
    if ps != [] {
      match Take(ps[0], inFragment, scratch)
      case Return(record, n) => ReadOnIs(ps[1..], false, []);
      case Stop(n) =>
      case Go(inFragment', scratch', n) => ReadOnIs(ps[1..], inFragment', scratch');
    }
  }

  predicate IsMiddle(p: Found) {
    p.Piece? && p.kind == 3
  }

  predicate AllMiddle(ps: seq<Found>) {
    forall j :: 0 <= j < |ps| ==> IsMiddle(ps[j])
  }

  /** The fragments up to m end a record. */
  ghost predicate EndsAt(ps: seq<Found>, m: nat) {
    0 < m <= |ps| && exists tail :: Chain(ps[..m], tail, false)
  }

  ghost predicate InRecord(ps: seq<Found>, i: nat) {
    exists k: nat, m: nat, record :: k <= i < m && Intact(ps, k, m, record)
  }

  /** The log ends inside the record that i belongs to. */
  ghost predicate Unfinished(ps: seq<Found>, i: nat) {
    exists k: nat :: k <= i < |ps| && ps[k].Piece? && ps[k].kind == 2 && AllMiddle(ps[k + 1..])
  }

  /** The same for a reader that is in the middle of a record. */
  ghost predicate Accounted(ps: seq<Found>, inFragment: bool, i: nat) {
    || InRecord(ps, i) || Unfinished(ps, i)
    || (inFragment && (AllMiddle(ps) || exists m: nat :: i < m && EndsAt(ps, m)))
  }

  lemma EndsAtNext(ps: seq<Found>, m: nat)
    requires ps != [] && EndsAt(ps[1..], m)
    ensures IsMiddle(ps[0]) ==> EndsAt(ps, m + 1)
    ensures ps[0].Piece? && ps[0].kind == 2 ==> forall i: nat :: i <= m ==> InRecord(ps, i)
  {
    var tail :| Chain(ps[1..][..m], tail, false);
    if IsMiddle(ps[0]) { ChainMore(ps, m, ps[0].data, tail, false); }
    if ps[0].Piece? && ps[0].kind == 2 {
      ChainMore(ps, m, ps[0].data, tail, true);
      assert ps[0..m + 1] == ps[..m + 1];
      assert Intact(ps, 0, m + 1, ps[0].data + tail);
    }
  }

  lemma LastEnds(ps: seq<Found>)
    requires ps != [] && ps[0].Piece?
    ensures ps[0].kind == 4 ==> EndsAt(ps, 1)
    ensures ps[0].kind == 1 ==> Intact(ps, 0, 1, ps[0].data)
  {
    OneFragment(ps, ps[0].data);
    assert ps[..1] == [ps[0]];
    if ps[0].kind == 4 { assert Chain(ps[..1], ps[0].data, false); }
  }

  ghost predicate Silent(ps: seq<Found>, inFragment: bool, scratch: seq<Byte>) {
    GoesOn(ps, |ps|) && ReadOn(ps, inFragment, scratch).reports == 0
  }

  lemma SilentRest(ps: seq<Found>, inFragment: bool, scratch: seq<Byte>)
    requires ps != [] && Silent(ps, inFragment, scratch)
    ensures var t := Take(ps[0], inFragment, scratch);
            && !t.Stop? && t.reports == 0
            && (t.Return? ==> Silent(ps[1..], false, []))
            && (t.Go? ==> Silent(ps[1..], t.inFragment, t.scratch))
  {
    assert forall i :: 0 <= i < |ps| - 1 ==> ps[1..][i] == ps[i + 1];
  }

  /** A record that was begun, with data, is ended or still open when the log ends. */
  lemma {:induction false} Completes(ps: seq<Found>, scratch: seq<Byte>)
    requires Silent(ps, true, scratch) && scratch != []
    ensures AllMiddle(ps) || exists m: nat :: EndsAt(ps, m)
    decreases |ps|
  {
    if ps != [] {
      SilentRest(ps, true, scratch);
      LastOrMiddle(ps[0], scratch);
      if IsMiddle(ps[0]) {
        Completes(ps[1..], scratch + ps[0].data);
        if AllMiddle(ps[1..]) {
          AllMiddleCons(ps);
        } else {
          var m: nat :| EndsAt(ps[1..], m);
          EndsAtNext(ps, m);
        }
      } else {
        LastEnds(ps);
      }
    }
  }

  lemma LastOrMiddle(p: Found, scratch: seq<Byte>)
    requires scratch != [] && !Take(p, true, scratch).Stop? && Take(p, true, scratch).reports == 0
    ensures p.Piece? && (p.kind == 3 || p.kind == 4)
    ensures p.kind == 3 ==> Take(p, true, scratch) == Go(true, scratch + p.data, 0)
  {
  }

  lemma AllMiddleCons(ps: seq<Found>)
    requires ps != [] && IsMiddle(ps[0]) && AllMiddle(ps[1..])
    ensures AllMiddle(ps)
  {
    forall j | 0 <= j < |ps| ensures IsMiddle(ps[j]) {
      if j > 0 { assert ps[j] == ps[1..][j - 1]; }
    }
  }

  /** The fragment at the front. */
  lemma FrontAccounted(ps: seq<Found>, inFragment: bool, scratch: seq<Byte>)
    requires ps != [] && Silent(ps, inFragment, scratch) && ps[0].Piece? && 1 <= ps[0].kind <= 4 && ps[0].data != []
    ensures Accounted(ps, inFragment, 0)
  {
    SilentRest(ps, inFragment, scratch);
    LastEnds(ps);
    if ps[0].kind == 2 {
      Completes(ps[1..], ps[0].data);
      if !AllMiddle(ps[1..]) {
        var m: nat :| EndsAt(ps[1..], m);
        EndsAtNext(ps, m);
      }
    } else if ps[0].kind == 3 {
      Completes(ps[1..], scratch + ps[0].data);
      if AllMiddle(ps[1..]) {
        AllMiddleCons(ps);
      } else {
        var m: nat :| EndsAt(ps[1..], m);
        EndsAtNext(ps, m);
      }
    }
  }

  lemma InRecordNext(ps: seq<Found>, i: nat)
    requires ps != [] && InRecord(ps[1..], i)
    ensures InRecord(ps, i + 1)
  {
    var k: nat, m: nat, record :| k <= i < m && Intact(ps[1..], k, m, record);
    IntactLater(ps, k, m, record);
  }

  lemma UnfinishedNext(ps: seq<Found>, i: nat)
    requires ps != [] && Unfinished(ps[1..], i)
    ensures Unfinished(ps, i + 1)
  {
    var k: nat :| k <= i < |ps[1..]| && ps[1..][k].Piece? && ps[1..][k].kind == 2 && AllMiddle(ps[1..][k + 1..]);
    assert ps[1..][k] == ps[k + 1] && ps[1..][k + 1..] == ps[k + 2..];
  }

  /** What holds behind the front holds with it. */
  lemma AccountedNext(ps: seq<Found>, inFragment: bool, inFragment': bool, i: nat)
    requires ps != [] && i < |ps| - 1 && Accounted(ps[1..], inFragment', i)
    requires inFragment' ==> ps[0].Piece? && (ps[0].kind == 2 || (ps[0].kind == 3 && inFragment))
    ensures Accounted(ps, inFragment, i + 1)
  {
    if InRecord(ps[1..], i) {
      InRecordNext(ps, i);
    } else if Unfinished(ps[1..], i) {
      UnfinishedNext(ps, i);
    } else if AllMiddle(ps[1..]) {
      if ps[0].kind == 3 { AllMiddleCons(ps); }
    } else {
      var m: nat :| i < m && EndsAt(ps[1..], m);
      EndsAtNext(ps, m);
    }
  }

  lemma {:induction false} AllAccounted(ps: seq<Found>, inFragment: bool, scratch: seq<Byte>, i: nat)
    requires Silent(ps, inFragment, scratch) && i < |ps| && ps[i].Piece? && 1 <= ps[i].kind <= 4 && ps[i].data != []
    ensures Accounted(ps, inFragment, i)
    decreases |ps|
  {
    if i == 0 {
      FrontAccounted(ps, inFragment, scratch);
    } else {
      SilentRest(ps, inFragment, scratch);
      var t := Take(ps[0], inFragment, scratch);
      if t.Return? {
        AllAccounted(ps[1..], false, [], i - 1);
        AccountedNext(ps, inFragment, false, i - 1);
      } else {
        AllAccounted(ps[1..], t.inFragment, t.scratch, i - 1);
        AccountedNext(ps, inFragment, t.inFragment, i - 1);
      }
    }
  }

  /** When a whole log is read without a report, every fragment with data is part of a
      record that is returned, or of one the log ends in. */
  lemma LossIsReported(ps: seq<Found>, i: nat)
    requires GoesOn(ps, |ps|) && ReadAll(ps).reports == 0
    requires i < |ps| && ps[i].Piece? && 1 <= ps[i].kind <= 4 && ps[i].data != []
    ensures InRecord(ps, i) || Unfinished(ps, i)
  {
    ReadOnIs(ps, false, []);
    AllAccounted(ps, false, [], i);
  }
}
