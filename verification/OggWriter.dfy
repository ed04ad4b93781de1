/** Wrapping raw Speex packets in Ogg pages, one packet a page, and the round trip through the reader. */
module OggWriter {
  import opened Bytes
  import opened OggCrc
  import opened OggReader
  import OggStream

  const MAX_PACKET := 65024

  /** Lacing values of a packet of n bytes: 255 while at least 255 bytes are left, then the remainder. */
  function Lacing(n: nat): (l: seq<byte>)
    ensures |l| == n / 255 + 1 && Sum(l) == n && FirstRun(l) == |l|
  {
    if n < 255 then [n] else [255] + Lacing(n - 255)
  }

  lemma LacingStep(before: seq<byte>, left: nat)
    requires left >= 255
    ensures before + [255] + Lacing(left - 255) == before + Lacing(left)
    ensures (left - 255) % 255 == left % 255
  {
    ConcatAssociates(before, [255], Lacing(left - 255));
  }

  lemma LacingEnds(left: nat)
    requires left < 255
    ensures Lacing(left) == [left]
  {
  }

  function LE64(n: nat): (b: seq<byte>)
    requires n < 0x1_0000_0000_0000_0000
    ensures |b| == 8 && n == U32LE(b, 0) + 0x1_0000_0000 * U32LE(b, 4)
  {
    var lo, hi := n % 0x1_0000_0000, n / 0x1_0000_0000;
    assert (LE32(lo) + LE32(hi))[4..] == LE32(hi);
    LE32(lo) + LE32(hi)
  }

  datatype Fields = Fields(flags: byte, granule: nat, serial: word, seqNo: word)

  predicate InRange(f: Fields) { f.granule < 0x8000_0000_0000_0000 }

  /** The bytes between the capture pattern and the segment count. */
  function Head(f: Fields, crc: word): (b: seq<byte>)
    requires InRange(f)
    ensures |b| == 22
  {
    [0, f.flags] + LE64(f.granule) + LE32(f.serial) + LE32(f.seqNo) + LE32(crc)
  }

  /** The page image before the checksum is stored: bytes 22..25 are zero. The segment count is one byte. */
  function Blank(f: Fields, data: Packet): (b: seq<byte>)
    requires InRange(f)
  {
    CAPTURE + Head(f, 0) + [|Lacing(|data|)| % 0x100] + Lacing(|data|) + data
  }

  function Image(f: Fields, data: Packet): (b: seq<byte>)
    requires InRange(f)
  {
    CAPTURE + Head(f, Crc(Blank(f, data))) + [|Lacing(|data|)| % 0x100] + Lacing(|data|) + data
  }

  const SPEEX: seq<byte> := [0x53, 0x70, 0x65, 0x65, 0x78, 0x20, 0x20, 0x20]  // "Speex   "
  const VERSION: seq<byte> := [0x31, 0x2e, 0x32, 0x2e, 0x31]  // "1.2.1"
  const VOXHF: seq<byte> := [0x56, 0x6f, 0x78, 0x48, 0x46]  // "VoxHF"
  const COMMENT: seq<byte> := LE32(5) + VOXHF + LE32(0)

  /** The Speex identification packet: 80 bytes, little-endian fields from byte 28 on. */
  function Identification(sampleRate: word, framesPerPacket: word): (b: seq<byte>)
    ensures |b| == 80
  {
    SPEEX + VERSION + seq(15, _ => 0)
    + LE32(1) + LE32(80) + LE32(sampleRate)
    + LE32(if sampleRate == 32000 then 2 else if sampleRate == 16000 then 1 else 0)
    + LE32(4) + LE32(1) + [0xff, 0xff, 0xff, 0xff] + LE32(FrameSize(sampleRate)) + LE32(0)
    + LE32(framesPerPacket) + seq(12, _ => 0)
  }

  lemma ImageIsPatchedBlank(f: Fields, data: Packet, crc: word)
    requires InRange(f)
    ensures |Blank(f, data)| == 27 + |Lacing(|data|)| + |data|
    ensures Blank(f, data)[..22] + LE32(crc) + Blank(f, data)[26..]
         == CAPTURE + Head(f, crc) + [|Lacing(|data|)| % 0x100] + Lacing(|data|) + data
  {
    var front := CAPTURE + [0, f.flags] + LE64(f.granule) + LE32(f.serial) + LE32(f.seqNo);
    var tail := [|Lacing(|data|)| % 0x100] + Lacing(|data|) + data;
    assert |front| == 22;
    assert forall c: word :: CAPTURE + Head(f, c) + [|Lacing(|data|)| % 0x100] + Lacing(|data|) + data
                          == front + LE32(c) + tail;
    assert Blank(f, data) == front + LE32(0) + tail;
    assert Blank(f, data)[..22] == front && Blank(f, data)[26..] == tail;
  }

  // `done` has been written at the front of the page and the rest of it is still zero.
  ghost predicate Written(page: seq<byte>, done: seq<byte>)
  {
    && |done| <= |page| && page[..|done|] == done
    && forall k :: |done| <= k < |page| ==> page[k] == 0
  }

  lemma SkipZeros(page: seq<byte>, done: seq<byte>, zeros: seq<byte>)
    requires Written(page, done) && |done| + |zeros| <= |page|
    requires forall k :: 0 <= k < |zeros| ==> zeros[k] == 0
    ensures Written(page, done + zeros)
  {
    var m := |done| + |zeros|;
    assert page[..m] == page[..|done|] + page[|done|..m];
    assert page[|done|..m] == zeros;
  }

  method Put(page: array<byte>, at: nat, bytes: seq<byte>)
    requires at + |bytes| <= page.Length
    modifies page
    ensures page[..] == old(page[..at]) + bytes + old(page[at + |bytes|..])
  {
    var i := 0;
    while i < |bytes|
      invariant 0 <= i <= |bytes|
      invariant forall k :: 0 <= k < page.Length ==>
        page[k] == if at <= k < at + i then bytes[k - at] else old(page[k])
    {
      page[at + i] := bytes[i];
      i := i + 1;
    }
    assert page[at..at + i] == bytes;
    assert page[..] == page[..at] + page[at..at + i] + page[at + i..];
  }

  method PutNext(page: array<byte>, bytes: seq<byte>, ghost done: seq<byte>, at: nat)
    requires at == |done| && at + |bytes| <= page.Length && Written(page[..], done)
    modifies page
    ensures Written(page[..], done + bytes)
  {
    Put(page, at, bytes);
    assert page[..][..at + |bytes|] == done + bytes;
  }

  class OggSpeexWriter {
    const table: array<word>
    const sampleRate: word
    const framesPerPacket: word
    const serial: word
    const frameSize: nat
    var seqNo: nat
    var granule: nat

    ghost predicate Valid()
      reads table
    {
      table.Length == 256 && forall i: byte :: table[i] == TableEntry(i)
    }

    /** The checks Buffer makes when the page fields are stored. */
    predicate Storable(granule: nat)
      reads this`seqNo
    {
      seqNo < 0x1_0000_0000 && granule < 0x8000_0000_0000_0000
    }

    constructor (table: array<word>, sampleRate: word, framesPerPacket: word, serial: word)
      requires table.Length == 256 && forall i: byte :: table[i] == TableEntry(i)
      ensures Valid() && seqNo == 0 && granule == 0
      ensures this.table == table && this.sampleRate == sampleRate && this.serial == serial
      ensures this.framesPerPacket == framesPerPacket
      ensures frameSize == FrameSize(sampleRate)
    {
      this.table := table;
      this.sampleRate, this.framesPerPacket, this.serial := sampleRate, framesPerPacket, serial;
      frameSize := FrameSize(sampleRate);
      seqNo, granule := 0, 0;
    }

    method Page(data: Packet, flags: byte, granule: nat) returns (image: seq<byte>)
      requires Valid() && Storable(granule)
      modifies this`seqNo
      ensures seqNo == old(seqNo) + 1
      ensures image == Image(Fields(flags, granule, serial, old(seqNo)), data)
    {
      hide Lacing, Head, LE64;
      ghost var f := Fields(flags, granule, serial, seqNo);
      var segments := Segments(data);
      var page := new byte[27 + |segments| + |data|](_ => 0);
      var number := seqNo;
      seqNo := seqNo + 1;
      Fill(page, flags, granule, number, segments, data);
      ImageIsPatchedBlank(f, data, Crc(Blank(f, data)));
      var crc := OggCrc.OggCrc(table, page[..]);
      Put(page, 22, LE32(crc));
      image := page[..];
    }

    method Headers() returns (bytes: seq<byte>)
      requires Valid() && seqNo + 1 < 0x1_0000_0000
      modifies this`seqNo
      ensures seqNo == old(seqNo) + 2
      ensures bytes == Image(Fields(2, 0, serial, old(seqNo)), Identification(sampleRate, framesPerPacket))
                     + Image(Fields(0, 0, serial, old(seqNo) + 1), COMMENT)
    {
      hide Image, Identification;
      var first := Page(Identification(sampleRate, framesPerPacket), 0x02, 0);
      var second := Page(COMMENT, 0x00, 0);
      bytes := first + second;
    }

    method Frame(data: Packet) returns (bytes: seq<byte>)
      requires Valid() && Storable(granule + frameSize * framesPerPacket as int)
      modifies this`seqNo, this`granule
      ensures seqNo == old(seqNo) + 1 && granule == old(granule) + frameSize * framesPerPacket as int
      ensures bytes == Image(Fields(0, granule, serial, old(seqNo)), data)
    {
      hide Image;
      granule := granule + frameSize * framesPerPacket as int;
      bytes := Page(data, 0x00, granule);
    }

    method Segments(data: Packet) returns (segments: seq<byte>)
      ensures segments == Lacing(|data|)
    {
      hide Lacing;
      segments := [];
      var left := |data|;
      assert [] + Lacing(left) == Lacing(left);
      while left >= 255
        invariant left >= 0 && segments + Lacing(left) == Lacing(|data|)
        invariant left % 255 == |data| % 255
      {
        LacingStep(segments, left);
        segments := segments + [255];
        left := left - 255;
      }
      LacingEnds(left);
      segments := segments + [|data| % 255];
    }

    method Fill(page: array<byte>, flags: byte, granule: nat, number: word, segments: seq<byte>, data: Packet)
      requires page.Length == 27 + |segments| + |data| && segments == Lacing(|data|)
      requires granule < 0x8000_0000_0000_0000 && Written(page[..], [])
      modifies page
      ensures page[..] == Blank(Fields(flags, granule, serial, number), data)
    {
      hide Lacing, LE64, Written;
      ghost var done := CAPTURE;
      PutNext(page, CAPTURE, [], 0);
      assert [] + CAPTURE == CAPTURE;
      SkipZeros(page[..], done, [0]);
      done := done + [0];
      PutNext(page, [flags], done, 5);
      done := done + [flags];
      PutNext(page, LE64(granule), done, 6);
      done := done + LE64(granule);
      PutNext(page, LE32(serial), done, 14);
      done := done + LE32(serial);
      PutNext(page, LE32(number), done, 18);
      done := done + LE32(number);
      FillRest(page, flags, granule, number, segments, data, done);
    }

    method FillRest(page: array<byte>, flags: byte, granule: nat, number: word, segments: seq<byte>, data: Packet,
        ghost done: seq<byte>)
      requires page.Length == 27 + |segments| + |data| && segments == Lacing(|data|)
      requires granule < 0x8000_0000_0000_0000
      requires done == CAPTURE + [0] + [flags] + LE64(granule) + LE32(serial) + LE32(number)
      requires Written(page[..], done)
      modifies page
      ensures page[..] == Blank(Fields(flags, granule, serial, number), data)
    {
      hide Lacing, LE64, Written;
      ghost var f := Fields(flags, granule, serial, number);
      ghost var d := done;
      assert |d| == 22;
      assert LE32(0) == [0, 0, 0, 0];
      SkipZeros(page[..], d, LE32(0));
      d := d + LE32(0);
      assert d == CAPTURE + Head(f, 0);
      PutNext(page, [|segments| % 0x100], d, 26);
      d := d + [|segments| % 0x100];
      PutNext(page, segments, d, 27);
      d := d + segments;
      PutNext(page, data, d, 27 + |segments|);
      d := d + data;
      WrittenOut(page[..], d);
    }
  }

  lemma WrittenOut(page: seq<byte>, done: seq<byte>)
    requires Written(page, done) && |done| == |page|
    ensures page == done
  {}

  function FrameSize(sampleRate: nat): (n: nat)
  {
    if sampleRate == 16000 then 320 else if sampleRate == 32000 then 640 else 160
  }

  // ---------------------------------------------------------------------------
  // The fields, byte by byte
  // ---------------------------------------------------------------------------

  /** A frame of the three Speex modes lasts 20 milliseconds. */
  lemma FrameLastsTwentyMilliseconds(sampleRate: nat)
    ensures sampleRate in {8000, 16000, 32000} ==> 50 * FrameSize(sampleRate) == sampleRate
    ensures FrameSize(sampleRate) in {160, 320, 640}
  {}

  lemma FieldAt(b: seq<byte>, front: seq<byte>, n: nat, tail: seq<byte>)
    requires n < 0x1_0000_0000 && b == front + LE32(n) + tail
    ensures |front| + 4 <= |b| && U32LE(b, |front|) == n
  {
    hide LE32;
    var field := LE32(n);
    assert U32LE(field, 0) == n;
    assert forall i :: 0 <= i < 4 ==> b[|front| + i] == field[i];
  }

  /** A page: "OggS", version 0, the flags, the granule as 64 bits, serial and page number, the checksum of the page
      with these four bytes zero, the number of lacing values, these, and the packet. */
  lemma PageFields(f: Fields, data: Packet)
    requires InRange(f)
    ensures var b, n := Image(f, data), |Lacing(|data|)|;
      && |b| == 27 + n + |data|
      && b[..4] == [0x4f, 0x67, 0x67, 0x53] && b[4] == 0 && b[5] == f.flags
      && U32LE(b, 6) + 0x1_0000_0000 * U32LE(b, 10) == f.granule
      && U32LE(b, 14) == f.serial && U32LE(b, 18) == f.seqNo
      && U32LE(b, 22) == Crc(b[..22] + [0, 0, 0, 0] + b[26..])
      && b[26] == n % 256 && b[27..27 + n] == Lacing(|data|) && b[27 + n..] == data
  {
    hide Lacing, Crc, LE64, LE32, U32LE;
    var b, crc := Image(f, data), Crc(Blank(f, data));
    var rest := [|Lacing(|data|)| % 0x100] + Lacing(|data|) + data;
    PageFieldsOf(b, f.flags, f.granule, f.serial, f.seqNo, crc, rest) by {
      assert b == CAPTURE + [0, f.flags] + LE64(f.granule) + LE32(f.serial) + LE32(f.seqNo) + LE32(crc) + rest;
    }
    PageIsWellFormed(f, data);
    assert b[26..] == rest;
  }

  lemma PageFieldsOf(b: seq<byte>, flags: byte, granule: nat, serial: word, seqNo: word, crc: word, rest: seq<byte>)
    requires granule < 0x1_0000_0000_0000_0000
    requires b == CAPTURE + [0, flags] + LE64(granule) + LE32(serial) + LE32(seqNo) + LE32(crc) + rest
    ensures |b| == 26 + |rest| && b[..4] == CAPTURE && b[4] == 0 && b[5] == flags && b[26..] == rest
    ensures U32LE(b, 6) + 0x1_0000_0000 * U32LE(b, 10) == granule
    ensures U32LE(b, 14) == serial && U32LE(b, 18) == seqNo && U32LE(b, 22) == crc
  {
    hide LE32, U32LE, LE64;
    var front := CAPTURE + [0, flags];
    var g := LE64(granule);
    FieldAt(b, front + g, serial, LE32(seqNo) + LE32(crc) + rest) by {
      assert b == front + g + LE32(serial) + (LE32(seqNo) + LE32(crc) + rest);
    }
    FieldAt(b, front + g + LE32(serial), seqNo, LE32(crc) + rest) by {
      assert b == front + g + LE32(serial) + LE32(seqNo) + (LE32(crc) + rest);
    }
    FieldAt(b, front + g + LE32(serial) + LE32(seqNo), crc, rest);
    SamePart(b, front, g, LE32(serial) + LE32(seqNo) + LE32(crc) + rest) by {
      assert b == front + g + (LE32(serial) + LE32(seqNo) + LE32(crc) + rest);
    }
  }

  lemma SamePart(b: seq<byte>, front: seq<byte>, part: seq<byte>, tail: seq<byte>)
    requires b == front + part + tail && |front| == 6 && |part| == 8
    ensures |b| >= 14 && U32LE(b, 6) == U32LE(part, 0) && U32LE(b, 10) == U32LE(part, 4)
  {
    assert forall i :: 0 <= i < 8 ==> b[6 + i] == part[i];
  }

  /** The identification packet of Speex: its fields from byte 28 on, in order. */
  lemma IdentificationFields(sampleRate: word, framesPerPacket: word)
    ensures var b := Identification(sampleRate, framesPerPacket);
      && b[..8] == [0x53, 0x70, 0x65, 0x65, 0x78, 0x20, 0x20, 0x20] && b[8..13] == [0x31, 0x2e, 0x32, 0x2e, 0x31]
      && (forall i :: 13 <= i < 28 || 68 <= i < 80 ==> b[i] == 0)
      && U32LE(b, 28) == 1 && U32LE(b, 32) == 80 && U32LE(b, 36) == sampleRate
      && U32LE(b, 40) == (if sampleRate == 32000 then 2 else if sampleRate == 16000 then 1 else 0)
      && U32LE(b, 44) == 4 && U32LE(b, 48) == 1 && U32LE(b, 52) == 0xffff_ffff
      && U32LE(b, 56) == FrameSize(sampleRate) && U32LE(b, 60) == 0 && U32LE(b, 64) == framesPerPacket
  {
    hide LE32, U32LE, FrameSize, Identification;
    var b := Identification(sampleRate, framesPerPacket);
    var mode := if sampleRate == 32000 then 2 else if sampleRate == 16000 then 1 else 0;
    FrameLastsTwentyMilliseconds(sampleRate);
    var front, end := TITLE, seq(12, _ => 0);
    IdentificationIs(sampleRate, framesPerPacket);
    TitleBytes();
    var first := LE32(1) + LE32(80) + LE32(sampleRate) + LE32(mode) + LE32(4) + LE32(1);
    var last := LE32(FrameSize(sampleRate)) + LE32(0) + LE32(framesPerPacket);
    assert b == front + first + ([0xff, 0xff, 0xff, 0xff] + last + end);
    TitleAndEnd(b, first, last, end);
    FirstFields(b, front, sampleRate, mode, [0xff, 0xff, 0xff, 0xff] + last + end);
    LastFields(b, front + first + [0xff, 0xff, 0xff, 0xff], FrameSize(sampleRate), framesPerPacket, end);
  }

  const TITLE: seq<byte> := SPEEX + VERSION + seq(15, _ => 0)

  lemma TitleBytes()
    ensures |TITLE| == 28 && TITLE[..8] == [0x53, 0x70, 0x65, 0x65, 0x78, 0x20, 0x20, 0x20]
    ensures TITLE[8..13] == [0x31, 0x2e, 0x32, 0x2e, 0x31] && forall i :: 13 <= i < 28 ==> TITLE[i] == 0
  {
  }

  lemma IdentificationIs(sampleRate: word, framesPerPacket: word)
    ensures var mode := if sampleRate == 32000 then 2 else if sampleRate == 16000 then 1 else 0;
      && FrameSize(sampleRate) < 0x1_0000_0000
      && Identification(sampleRate, framesPerPacket)
         == TITLE + (LE32(1) + LE32(80) + LE32(sampleRate) + LE32(mode) + LE32(4) + LE32(1))
            + [0xff, 0xff, 0xff, 0xff] + (LE32(FrameSize(sampleRate)) + LE32(0) + LE32(framesPerPacket))
            + seq(12, _ => 0)
  {
    hide LE32, FrameSize;
    FrameLastsTwentyMilliseconds(sampleRate);
  }

  lemma TitleAndEnd(b: seq<byte>, first: seq<byte>, last: seq<byte>, end: seq<byte>)
    requires |first| == 24 && |last| == 12 && |end| == 12 && (forall i :: 0 <= i < 12 ==> end[i] == 0)
    requires b == TITLE + first + [0xff, 0xff, 0xff, 0xff] + last + end
    ensures b[..8] == [0x53, 0x70, 0x65, 0x65, 0x78, 0x20, 0x20, 0x20] && b[8..13] == [0x31, 0x2e, 0x32, 0x2e, 0x31]
    ensures forall i :: 13 <= i < 28 || 68 <= i < 80 ==> b[i] == 0
    ensures U32LE(b, 52) == 0xffff_ffff
  {
    TitleBytes();
    assert b[..28] == TITLE;
    assert b[..8] == TITLE[..8] && b[8..13] == TITLE[8..13];
    assert forall i :: 68 <= i < 80 ==> b[i] == end[i - 68];
  }

  lemma FirstFields(b: seq<byte>, front: seq<byte>, sampleRate: word, mode: word, rest: seq<byte>)
    requires |front| == 28
    requires b == front + (LE32(1) + LE32(80) + LE32(sampleRate) + LE32(mode) + LE32(4) + LE32(1)) + rest
    ensures |b| >= 52 && U32LE(b, 28) == 1 && U32LE(b, 32) == 80 && U32LE(b, 36) == sampleRate && U32LE(b, 40) == mode
    ensures U32LE(b, 44) == 4 && U32LE(b, 48) == 1
  {
    hide LE32, U32LE;
    FieldAt(b, front, 1, LE32(80) + LE32(sampleRate) + LE32(mode) + LE32(4) + LE32(1) + rest);
    FieldAt(b, front + LE32(1), 80, LE32(sampleRate) + LE32(mode) + LE32(4) + LE32(1) + rest);
    FieldAt(b, front + LE32(1) + LE32(80), sampleRate, LE32(mode) + LE32(4) + LE32(1) + rest);
    FieldAt(b, front + LE32(1) + LE32(80) + LE32(sampleRate), mode, LE32(4) + LE32(1) + rest);
    FieldAt(b, front + LE32(1) + LE32(80) + LE32(sampleRate) + LE32(mode), 4, LE32(1) + rest);
    FieldAt(b, front + LE32(1) + LE32(80) + LE32(sampleRate) + LE32(mode) + LE32(4), 1, rest);
  }

  lemma LastFields(b: seq<byte>, front: seq<byte>, size: word, framesPerPacket: word, rest: seq<byte>)
    requires |front| == 56 && b == front + (LE32(size) + LE32(0) + LE32(framesPerPacket)) + rest
    ensures |b| >= 68 && U32LE(b, 56) == size && U32LE(b, 60) == 0 && U32LE(b, 64) == framesPerPacket
  {
    hide LE32, U32LE;
    FieldAt(b, front, size, LE32(0) + LE32(framesPerPacket) + rest);
    FieldAt(b, front + LE32(size), 0, LE32(framesPerPacket) + rest);
    FieldAt(b, front + LE32(size) + LE32(0), framesPerPacket, rest);
  }

  /** The comment packet: the vendor "VoxHF" with its length, and no comments. */
  lemma CommentFields()
    ensures |COMMENT| == 13 && U32LE(COMMENT, 0) == 5 && U32LE(COMMENT, 9) == 0
    ensures COMMENT[4..9] == [0x56, 0x6f, 0x78, 0x48, 0x46]
  {}

  // ---------------------------------------------------------------------------
  // Round trip
  // ---------------------------------------------------------------------------

  function PageOf(f: Fields, data: Packet): (p: Page)
    requires InRange(f)
  {
    Page(Head(f, Crc(Blank(f, data))), Lacing(|data|), data)
  }

  /** The count byte describes the lacing table exactly when the packet has at most 65024 bytes; then the
      written image is the wire form of the page, and its checksum is that of the image with bytes 22..25 zero. */
  lemma PageIsWellFormed(f: Fields, data: Packet)
    requires InRange(f)
    ensures |Image(f, data)| > 26
    ensures Image(f, data)[26] as int == |Lacing(|data|)| <==> |data| <= MAX_PACKET
    ensures PageOf(f, data).Valid() <==> |data| <= MAX_PACKET
    ensures |data| <= MAX_PACKET ==> Image(f, data) == Wire(PageOf(f, data))
    ensures U32LE(Image(f, data), 22) == Crc(Blank(f, data))
    ensures Blank(f, data) == Image(f, data)[..22] + [0, 0, 0, 0] + Image(f, data)[26..]
  {
    hide Lacing, LE64, Crc;
    var crc := Crc(Blank(f, data));
    var front := CAPTURE + [0, f.flags] + LE64(f.granule) + LE32(f.serial) + LE32(f.seqNo);
    var tail := [|Lacing(|data|)| % 0x100] + Lacing(|data|) + data;
    assert |front| == 22;
    assert Image(f, data) == front + LE32(crc) + tail;
    assert Blank(f, data) == front + LE32(0) + tail;
    assert Image(f, data)[22..26] == LE32(crc);
    assert Image(f, data)[26] == tail[0];
    assert LE32(0) == [0, 0, 0, 0];
  }

  /** An input: 65025 bytes need 256 lacing values, the count byte says 0, and a reader takes the first 27 bytes for a
      page without segments. */
  lemma OversizedPacketHasNoPage(f: Fields)
    requires InRange(f)
    ensures var data: Packet := seq(65025, _ => 0);
      var image := Image(f, data);
      && |Lacing(|data|)| == 256 && |image| > 27 && image[26] == 0
      && HoldsPage(image) && PageLength(image) == 27
  {
    hide Lacing, Crc, LE64;
    var data: Packet := seq(65025, _ => 0);
    var image := Image(f, data);
    var front := CAPTURE + Head(f, Crc(Blank(f, data)));
    assert |front| == 26 && image == front + [0] + (Lacing(|data|) + data);
    assert image[27..27] == [];
  }

  ghost predicate AllInRange(fields: seq<Fields>) { forall f :: f in fields ==> InRange(f) }

  /** The images of several pages written one after the other. */
  function Images(fields: seq<Fields>, packets: seq<Packet>): (b: seq<byte>)
    requires |fields| == |packets| && AllInRange(fields)
    decreases |packets|
  {
    if packets == [] then [] else Image(fields[0], packets[0]) + Images(fields[1..], packets[1..])
  }

  function PagesOf(fields: seq<Fields>, packets: seq<Packet>): (pages: seq<Page>)
    requires |fields| == |packets| && AllInRange(fields)
    decreases |packets|
  {
    if packets == [] then [] else [PageOf(fields[0], packets[0])] + PagesOf(fields[1..], packets[1..])
  }

  ghost predicate AllFit(packets: seq<Packet>) { forall p :: p in packets ==> |p| <= MAX_PACKET }

  lemma {:induction false} ImagesArePages(fields: seq<Fields>, packets: seq<Packet>)
    requires |fields| == |packets| && AllInRange(fields) && AllFit(packets)
    ensures AllValid(PagesOf(fields, packets)) && WireAll(PagesOf(fields, packets)) == Images(fields, packets)
    decreases |packets|
  {
    hide Image, PageOf, Wire;
    if packets != [] {
      assert packets[0] in packets && fields[0] in fields;
      PageIsWellFormed(fields[0], packets[0]);
      ImagesArePages(fields[1..], packets[1..]);
      var p, rest := PageOf(fields[0], packets[0]), PagesOf(fields[1..], packets[1..]);
      assert ([p] + rest)[1..] == rest;
    }
  }

  lemma {:induction false} FirstRunOfAppend(a: seq<byte>, b: seq<byte>)
    requires FirstRun(a) == |a| > 0
    ensures FirstRun(a + b) == |a|
    decreases |a|
  {
    assert (a + b)[1..] == a[1..] + b;
    if a[0] == 255 { FirstRunOfAppend(a[1..], b); }
  }

  /** One packet a page: the stream carries exactly the packets it was given. */
  lemma {:induction false} PagesCarryPackets(fields: seq<Fields>, packets: seq<Packet>)
    requires |fields| == |packets| && AllInRange(fields) && AllFit(packets)
    ensures AllValid(PagesOf(fields, packets))
    ensures |AllData(PagesOf(fields, packets))| == Sum(AllLacing(PagesOf(fields, packets)))
    ensures Packets(AllLacing(PagesOf(fields, packets)), AllData(PagesOf(fields, packets))) == packets
    decreases |packets|
  {
    hide Image, PageOf, Wire, Lacing, Packets;
    ImagesArePages(fields, packets);
    OggStream.DataMatchesLacing(PagesOf(fields, packets));
    if packets == [] {
      NoPackets();
    } else {
      var rest := PagesOf(fields[1..], packets[1..]);
      assert packets[0] in packets && fields[0] in fields;
      PagesCarryPackets(fields[1..], packets[1..]);
      PageOfFields(fields[0], packets[0]);
      assert PagesOf(fields, packets)[1..] == rest;
      FirstPacketOfAppend(Lacing(|packets[0]|), packets[0], AllLacing(rest), AllData(rest));
    }
  }

  lemma NoPackets()
    ensures Packets([], []) == []
  {}

  lemma PageOfFields(f: Fields, data: Packet)
    requires InRange(f)
    ensures PageOf(f, data).lacing == Lacing(|data|) && PageOf(f, data).data == data
  {}

  lemma FirstPacketOfAppend(lacing: seq<byte>, packet: Packet, l: seq<byte>, d: seq<byte>)
    requires FirstRun(lacing) == |lacing| > 0 && |packet| == Sum(lacing) && |d| == Sum(l)
    ensures Sum(lacing + l) == |packet + d|
    ensures Packets(lacing + l, packet + d) == [packet] + Packets(l, d)
  {
    SumAppend(lacing, l);
    FirstRunOfAppend(lacing, l);
    assert (lacing + l)[..|lacing|] == lacing && (lacing + l)[|lacing|..] == l;
    assert (packet + d)[..|packet|] == packet && (packet + d)[|packet|..] == d;
  }

  /** headers() followed by frame() for each packet, cut into any chunks: the reader gives the packets back,
      in order. Only empty packets are lost. */
  lemma RoundTrip(fields: seq<Fields>, sampleRate: word, framesPerPacket: word, packets: seq<Packet>,
                  chunks: seq<seq<byte>>)
    requires |fields| == |packets| + 2 && AllInRange(fields) && AllFit(packets)
    requires Flatten(chunks) == Images(fields, [Identification(sampleRate, framesPerPacket), COMMENT] + packets)
    ensures OggStream.PushAll(INITIAL, chunks).packets == NonEmpty(packets)
    ensures [] !in packets ==> OggStream.PushAll(INITIAL, chunks).packets == packets
  {
    hide Identification, Images, PagesOf, Packets, OggStream.PushAll, NonEmpty;
    var all := [Identification(sampleRate, framesPerPacket), COMMENT] + packets;
    assert all[2..] == packets;
    assert AllFit(all) by {
      forall p | p in all ensures |p| <= MAX_PACKET {
        assert p == all[0] || p == all[1] || p in packets;
      }
    }
    ImagesArePages(fields, all);
    PagesCarryPackets(fields, all);
    OggStream.ReaderEmitsThePackets(PagesOf(fields, all), chunks);
    if [] !in packets { NothingLost(packets); }
  }

  lemma {:induction false} NothingLost(packets: seq<Packet>)
    requires [] !in packets
    ensures NonEmpty(packets) == packets
  {
    if packets != [] {
      assert packets[0] in packets && [] !in packets[1..];
      NothingLost(packets[1..]);
    }
  }

  // ---------------------------------------------------------------------------
  // A whole transmission
  // ---------------------------------------------------------------------------

  /** The samples in n frames. */
  function Granule(step: nat, n: nat): nat {
    if n == 0 then 0 else Granule(step, n - 1) + step
  }

  lemma {:induction false} GranuleGrows(step: nat, i: nat, n: nat)
    requires i <= n
    ensures Granule(step, i) <= Granule(step, n)
    decreases n
  {
    if i < n { GranuleGrows(step, i, n - 1); }
  }

  lemma {:induction false} ImagesSnoc(fields: seq<Fields>, packets: seq<Packet>, f: Fields, p: Packet)
    requires |fields| == |packets| && AllInRange(fields) && InRange(f)
    ensures AllInRange(fields + [f])
    ensures Images(fields + [f], packets + [p]) == Images(fields, packets) + Image(f, p)
    decreases |packets|
  {
    hide Image;
    if packets == [] {
      assert Images([], []) == [];
      assert (fields + [f])[1..] == [] && (packets + [p])[1..] == [];
    } else {
      ImagesSnoc(fields[1..], packets[1..], f, p);
      assert (fields + [f])[1..] == fields[1..] + [f];
      assert (packets + [p])[1..] == packets[1..] + [p];
      ConcatAssociates(Image(fields[0], packets[0]), Images(fields[1..], packets[1..]), Image(f, p));
    }
  }

  predicate Countable(step: nat, n: nat) {
    2 + n <= 0x1_0000_0000 && Granule(step, n) < 0x8000_0000_0000_0000
  }

  lemma FewerAreCountable(step: nat, i: nat, n: nat)
    requires i <= n && Countable(step, n)
    ensures Countable(step, i)
  {
    GranuleGrows(step, i, n);
  }

  /** Header pages are numbered 0 and 1, frames from 2 on with the samples so far. */
  function StreamFields(serial: word, step: nat, n: nat): (fields: seq<Fields>)
    requires Countable(step, n)
    ensures |fields| == n + 2 && AllInRange(fields)
  {
    if n == 0 then [Fields(2, 0, serial, 0), Fields(0, 0, serial, 1)]
    else
      FewerAreCountable(step, n - 1, n);
      StreamFields(serial, step, n - 1) + [Fields(0, Granule(step, n), serial, n + 1)]
  }

  /** Every reader that gets these bytes, in whatever chunks, emits the packets. */
  ghost predicate ComesBack(bytes: seq<byte>, packets: seq<Packet>) {
    forall chunks: seq<seq<byte>> ::
      Flatten(chunks) == bytes ==> OggStream.PushAll(INITIAL, chunks).packets == NonEmpty(packets)
  }

  lemma StreamComesBack(fields: seq<Fields>, sampleRate: word, framesPerPacket: word, packets: seq<Packet>,
                        bytes: seq<byte>)
    requires |fields| == |packets| + 2 && AllInRange(fields) && AllFit(packets)
    requires bytes == Images(fields, [Identification(sampleRate, framesPerPacket), COMMENT] + packets)
    ensures ComesBack(bytes, packets)
  {
    hide Identification, Images, OggStream.PushAll, NonEmpty;
    forall chunks: seq<seq<byte>> | Flatten(chunks) == bytes
      ensures OggStream.PushAll(INITIAL, chunks).packets == NonEmpty(packets)
    {
      RoundTrip(fields, sampleRate, framesPerPacket, packets, chunks);
    }
  }

  /** headers() and then frame() for every packet: a reader gets the packets back for every chunking. */
  method WriteStream(table: array<word>, sampleRate: word, framesPerPacket: word, serial: word, packets: seq<Packet>)
      returns (bytes: seq<byte>)
    requires table.Length == 256 && forall i: byte :: table[i] == TableEntry(i)
    requires Countable(FrameSize(sampleRate) * framesPerPacket as int, |packets|)
    ensures bytes == Images(StreamFields(serial, FrameSize(sampleRate) * framesPerPacket as int, |packets|),
                            [Identification(sampleRate, framesPerPacket), COMMENT] + packets)
    ensures AllFit(packets) ==> ComesBack(bytes, packets)
  {
    hide Identification, Image, Images, TableEntry, ComesBack, InRange, AllInRange, FrameSize, Countable, Granule;
    hide StreamFields;
    var writer := new OggSpeexWriter(table, sampleRate, framesPerPacket, serial);
    ghost var step := FrameSize(sampleRate) * framesPerPacket as int;
    ghost var heads := [Identification(sampleRate, framesPerPacket), COMMENT];
    FewerAreCountable(step, 0, |packets|);
    bytes := writer.Headers();
    HeaderImages(serial, step, heads[0], heads[1]);
    assert heads + packets[..0] == heads == [heads[0], heads[1]];
    for i := 0 to |packets|
      invariant writer.Valid() && writer.seqNo == i + 2 && writer.granule == Granule(step, i) && Countable(step, i)
      invariant bytes == Images(StreamFields(serial, step, i), heads + packets[..i])
    {
      FewerAreCountable(step, i + 1, |packets|);
      OneMoreFrame(serial, step, i, heads + packets[..i], packets[i]);
      assert heads + packets[..i] + [packets[i]] == heads + packets[..i + 1];
      var page := writer.Frame(packets[i]);
      bytes := bytes + page;
    }
    assert packets[..|packets|] == packets;
    if AllFit(packets) {
      StreamComesBack(StreamFields(serial, step, |packets|), sampleRate, framesPerPacket, packets, bytes);
    }
  }

  lemma OneMoreFrame(serial: word, step: nat, i: nat, packets: seq<Packet>, p: Packet)
    requires Countable(step, i) && Countable(step, i + 1) && |packets| == i + 2
    ensures i + 2 < 0x1_0000_0000 && Granule(step, i + 1) == Granule(step, i) + step < 0x8000_0000_0000_0000
    ensures Images(StreamFields(serial, step, i + 1), packets + [p])
         == Images(StreamFields(serial, step, i), packets) + Image(Fields(0, Granule(step, i + 1), serial, i + 2), p)
  {
    hide Images, Image;
    ImagesSnoc(StreamFields(serial, step, i), packets, Fields(0, Granule(step, i + 1), serial, i + 2), p);
  }

  lemma HeaderImages(serial: word, step: nat, first: Packet, second: Packet)
    requires Countable(step, 0)
    ensures Granule(step, 0) == 0
    ensures Images(StreamFields(serial, step, 0), [first, second])
         == Image(Fields(2, 0, serial, 0), first) + Image(Fields(0, 0, serial, 1), second)
  {
    hide Image;
    var f, g := Fields(2, 0, serial, 0), Fields(0, 0, serial, 1);
    assert Images([f, g], [first, second]) == Image(f, first) + Images([g], [second]) by {
      assert [f, g][1..] == [g] && [first, second][1..] == [second];
    }
    assert Images([g], [second]) == Image(g, second) + Images([], []) by {
      assert [g][1..] == [] && [second][1..] == [];
    }
  }
}
