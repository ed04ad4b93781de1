/** Ogg pages, the packets they carry (sections 5 and 6 of RFC 3533), and the incremental packet reader. */
module OggReader {
  import opened Bytes
  import opened Selections

  type Packet = seq<byte>

  const CAPTURE: seq<byte> := [0x4f, 0x67, 0x67, 0x53]  // "OggS"

  // ---------------------------------------------------------------------------
  // Pages and packets
  // ---------------------------------------------------------------------------

  /** `head` is everything between the capture pattern and the segment count. */
  datatype Page = Page(head: seq<byte>, lacing: seq<byte>, data: seq<byte>) {
    predicate Valid() { |head| == 22 && |lacing| <= 255 && |data| == Sum(lacing) }
  }

  function Sum(lacing: seq<byte>): (n: nat)
  {
    if lacing == [] then 0 else lacing[0] + Sum(lacing[1..])
  }

  function Wire(p: Page): (b: seq<byte>)
    requires p.Valid()
    ensures |b| == 27 + |p.lacing| + |p.data|
  {
    CAPTURE + p.head + [|p.lacing|] + p.lacing + p.data
  }

  ghost predicate AllValid(pages: seq<Page>) { forall p :: p in pages ==> p.Valid() }

  function WireAll(pages: seq<Page>): (b: seq<byte>)
    requires AllValid(pages)
  {
    if pages == [] then [] else Wire(pages[0]) + WireAll(pages[1..])
  }

  function AllLacing(pages: seq<Page>): (l: seq<byte>)
  {
    if pages == [] then [] else pages[0].lacing + AllLacing(pages[1..])
  }

  function AllData(pages: seq<Page>): (d: seq<byte>)
  {
    if pages == [] then [] else pages[0].data + AllData(pages[1..])
  }

  /** How many lacing values the first packet has: all of the leading 255s and the value below 255 that
      ends it, or 0 when it does not end. */
  function FirstRun(lacing: seq<byte>): (n: nat)
    ensures n <= |lacing|
  {
    if lacing == [] then 0
    else if lacing[0] < 255 then 1
    else if FirstRun(lacing[1..]) == 0 then 0
    else 1 + FirstRun(lacing[1..])
  }

  function FirstLength(lacing: seq<byte>): (m: nat)
    ensures Sum(lacing) == m + Sum(lacing[FirstRun(lacing)..])
  {
    SumSplit(lacing, FirstRun(lacing));
    Sum(lacing[..FirstRun(lacing)])
  }

  /** The complete packets of a logical bitstream, from all its lacing values and all its data. */
  function Packets(lacing: seq<byte>, data: seq<byte>): (packets: seq<Packet>)
    requires |data| == Sum(lacing)
    decreases |lacing|
  {
    var n, m := FirstRun(lacing), FirstLength(lacing);
    if n == 0 then [] else [data[..m]] + Packets(lacing[n..], data[m..])
  }

  lemma {:induction false} SumSplit(lacing: seq<byte>, n: nat)
    requires n <= |lacing|
    ensures Sum(lacing) == Sum(lacing[..n]) + Sum(lacing[n..])
    decreases n
  {
    if n > 0 {
      SumSplit(lacing[1..], n - 1);
      assert lacing[..n][1..] == lacing[1..][..n - 1];
      assert lacing[1..][n - 1..] == lacing[n..];
    }
  }

  lemma SumAppend(a: seq<byte>, b: seq<byte>)
    ensures Sum(a + b) == Sum(a) + Sum(b)
  {
    SumSplit(a + b, |a|);
    assert (a + b)[..|a|] == a && (a + b)[|a|..] == b;
  }

  /** What the reader passes on: the two Speex header packets and empty packets are left out. */
  function Audio(packets: seq<Packet>): (kept: seq<Packet>)
  {
    NonEmpty(if |packets| <= 2 then [] else packets[2..])
  }

  function NonEmpty(packets: seq<Packet>): (kept: seq<Packet>)
    ensures forall p :: p in kept ==> p in packets && p != []
  {
    if packets == [] then []
    else (if packets[0] == [] then [] else [packets[0]]) + NonEmpty(packets[1..])
  }

  /** Exactly the packets that are not empty, in order. */
  lemma {:induction false} NonEmptyIsExact(packets: seq<Packet>)
    ensures Picks(packets, NonEmpty(packets), (p: Packet) => p != [])
    decreases |packets|
  {
    hide Picks;
    var full := (p: Packet) => p != [];
    if packets == [] {
      PicksNothing(full);
    } else {
      NonEmptyIsExact(packets[1..]);
      PicksCons(packets[1..], NonEmpty(packets[1..]), packets[0], full);
      assert [packets[0]] + packets[1..] == packets;
      assert [] + NonEmpty(packets[1..]) == NonEmpty(packets[1..]);
    }
  }

  // ---------------------------------------------------------------------------
  // The reader as a function of its state
  // ---------------------------------------------------------------------------

  datatype State = State(buffer: seq<byte>, partial: Packet, count: nat)
  datatype Step = Step(state: State, packets: seq<Packet>)
  datatype Cut = Cut(packets: seq<Packet>, partial: Packet)

  const INITIAL := State([], [], 0)

  /** Cuts the data of one page at its lacing values; `partial` is the packet that an earlier page began. */
  function Segments(partial: Packet, lacing: seq<byte>, data: seq<byte>): (c: Cut)
    requires |data| == Sum(lacing)
    decreases |lacing|
  {
    if lacing == [] then Cut([], partial) else
      var packet := partial + data[..lacing[0]];
      if lacing[0] < 255 then
        var c := Segments([], lacing[1..], data[lacing[0]..]);
        Cut([packet] + c.packets, c.partial)
      else
        Segments(packet, lacing[1..], data[lacing[0]..])
  }

  /** The packets that are passed on when `count` packets came before them. */
  function Heard(packets: seq<Packet>, count: nat): (kept: seq<Packet>)
  {
    if packets == [] then []
    else (if count + 1 > 2 && packets[0] != [] then [packets[0]] else []) + Heard(packets[1..], count + 1)
  }

  predicate CaptureAt(b: seq<byte>, i: nat) { i + 4 <= |b| && b[i..i + 4] == CAPTURE }

  /** Index of the capture pattern at or after i; |b| when there is none. */
  function Find(b: seq<byte>, i: nat): (at: nat)
    requires i <= |b|
    ensures i <= at <= |b|
    ensures at < |b| ==> CaptureAt(b, at)
    ensures forall k :: i <= k < at ==> !CaptureAt(b, k)
    decreases |b| - i
  {
    if i == |b| || CaptureAt(b, i) then i else Find(b, i + 1)
  }

  function PageLength(b: seq<byte>): (n: nat)
    requires |b| >= 27 && |b| >= 27 + b[26] as int
  {
    27 + b[26] as int + Sum(b[27..27 + b[26] as int])
  }

  predicate HoldsPage(b: seq<byte>) { |b| >= 27 && |b| >= 27 + b[26] as int && |b| >= PageLength(b) }

  /** Everything the reader does with a buffer: take the complete pages off its front. */
  function Scan(s: State): (r: Step)
    decreases |s.buffer|, 1
  {
    if |s.buffer| < 27 then Step(s, []) else ScanPage(s.(buffer := s.buffer[Find(s.buffer, 0)..]))
  }

  /** The page that the buffer begins with, once it is complete, and all behind it. */
  function ScanPage(s: State): (r: Step)
    decreases |s.buffer|, 0
  {
    var b := s.buffer;
    if !HoldsPage(b) then Step(s, []) else
      var d := 27 + b[26] as int;
      var c := Segments(s.partial, b[27..d], b[d..PageLength(b)]);
      var r := Scan(State(b[PageLength(b)..], c.partial, s.count + |c.packets|));
      Step(r.state, Heard(c.packets, s.count) + r.packets)
  }

  class OggPacketReader {
    var buffer: seq<byte>
    var pending: Packet
    var count: nat

    function Current(): State
      reads this
    {
      State(buffer, pending, count)
    }

    constructor ()
      ensures Current() == INITIAL
    {
      buffer, pending, count := [], [], 0;
    }

    /** Returns the packets handed to the callback, in order. */
    method Push(chunk: seq<byte>) returns (packets: seq<Packet>)
      modifies this
      ensures Step(Current(), packets) == Scan(old(State(buffer + chunk, pending, count)))
    {
      hide Scan, Find, Segments, Heard;
      buffer := buffer + chunk;
      packets := [];
      ghost var goal := Scan(Current());
      ScanStops(Current());
      while |buffer| >= 27
        invariant goal.state == Scan(Current()).state
        invariant goal.packets == packets + Scan(Current()).packets
        invariant |buffer| < 27 ==> Scan(Current()) == Step(Current(), [])
        decreases |buffer|
      {
        var start := Find(buffer, 0);
        ScanSkips(Current());
        buffer := buffer[start..];
        ScanStops(Current());
        if |buffer| < 27 { return; }
        var dataStart := 27 + buffer[26] as int;
        if |buffer| < dataStart { return; }
        var table := buffer[27..dataStart];
        var dataLen := TableSum(table);
        var pageLen := dataStart + dataLen;
        if |buffer| < pageLen { return; }
        var heard := TakePage(dataStart, pageLen);
        ScanStops(Current());
        packets := packets + heard;
      }
    }

    method TakePage(dataStart: nat, pageLen: nat) returns (heard: seq<Packet>)
      requires HoldsPage(buffer) && Find(buffer, 0) == 0
      requires dataStart == 27 + buffer[26] as int && pageLen == PageLength(buffer)
      modifies this
      ensures |buffer| < old(|buffer|)
      ensures old(Scan(Current())) == Step(Scan(Current()).state, heard + Scan(Current()).packets)
    {
      hide Scan, Find, Segments, Heard;
      ScanTakes(Current());
      var table := buffer[27..dataStart];
      var data := buffer[dataStart..pageLen];
      buffer := buffer[pageLen..];
      heard := TakeSegments(table, data);
    }

    method TakeSegments(table: seq<byte>, data: seq<byte>) returns (heard: seq<Packet>)
      requires |data| == Sum(table)
      modifies this`pending, this`count
      ensures var c := Segments(old(pending), table, data);
        pending == c.partial && count == old(count) + |c.packets| && heard == Heard(c.packets, old(count))
    {
      hide Segments, Heard, Midway;
      var offset, i := 0, 0;
      heard := [];
      ghost var done: seq<Packet> := [];
      MidwayEnds(Segments(pending, table, data), pending, table, data);
      while i < |table|
        invariant 0 <= i <= |table| && 0 <= offset && offset + Sum(table[i..]) == |data|
        invariant count == old(count) + |done| && heard == Heard(done, old(count))
        invariant Midway(Segments(old(pending), table, data), done, pending, table[i..], data[offset..])
      {
        var len := table[i];
        MidwayStep(Segments(old(pending), table, data), done, pending, table, data, i, offset);
        pending := pending + data[offset..offset + len];
        offset := offset + len;
        i := i + 1;
        if len < 255 {
          var packet := pending;
          pending := [];
          count := count + 1;
          HeardSnoc(done, packet, old(count));
          done := done + [packet];
          if count > 2 && packet != [] { heard := heard + [packet]; }
        }
      }
      MidwayDone(Segments(old(pending), table, data), done, pending, table[i..], data[offset..]);
    }
  }

  method TableSum(table: seq<byte>) returns (n: nat)
    ensures n == Sum(table)
  {
    n := 0;
    var i := 0;
    while i < |table|
      invariant 0 <= i <= |table| && n + Sum(table[i..]) == Sum(table)
    {
      assert table[i..][1..] == table[i + 1..];
      n := n + table[i];
      i := i + 1;
    }
  }

  // The steps of Scan: it stops at an incomplete page, skips what precedes the capture pattern, and takes a page.
  lemma ScanStops(s: State)
    ensures |s.buffer| < 27 || (Find(s.buffer, 0) == 0 && !HoldsPage(s.buffer)) ==> Scan(s) == Step(s, [])
  {}

  lemma ScanSkips(s: State)
    requires |s.buffer| >= 27
    ensures var b := s.buffer[Find(s.buffer, 0)..];
      Scan(s) == Scan(s.(buffer := b)) && Find(b, 0) == 0
  {
    hide Find, Segments, Heard, PageLength;
    var start := Find(s.buffer, 0);
    var b := s.buffer[start..];
    FindAtEnd();
    if start < |s.buffer| { FindAtFront(s.buffer, start); }
    if |b| < 27 {
      ScanStops(s.(buffer := b));
    } else {
      hide ScanPage;
      assert b[0..] == b;
    }
  }

  lemma ScanTakes(s: State)
    requires HoldsPage(s.buffer) && Find(s.buffer, 0) == 0
    ensures var b, d := s.buffer, 27 + s.buffer[26] as int;
      var c := Segments(s.partial, b[27..d], b[d..PageLength(b)]);
      var r := Scan(State(b[PageLength(b)..], c.partial, s.count + |c.packets|));
      Scan(s) == Step(r.state, Heard(c.packets, s.count) + r.packets)
  {
    hide Segments, Heard, Find, PageLength;
    assert s.buffer[0..] == s.buffer;
  }

  lemma FindAtEnd()
    ensures Find([], 0) == 0
  {}

  lemma FindAtFront(b: seq<byte>, at: nat)
    requires at < |b| && at == Find(b, 0)
    ensures Find(b[at..], 0) == 0
  {
    assert b[at..][0..4] == b[at..at + 4];
  }

  // `all` is what cutting a page gives; `done` came out so far, and cutting the rest gives what is missing.
  ghost predicate Midway(all: Cut, done: seq<Packet>, partial: Packet, lacing: seq<byte>, data: seq<byte>)
    requires |data| == Sum(lacing)
  {
    var c := Segments(partial, lacing, data);
    all.partial == c.partial && all.packets == done + c.packets
  }

  lemma MidwayEnds(all: Cut, partial: Packet, lacing: seq<byte>, data: seq<byte>)
    requires |data| == Sum(lacing) && all == Segments(partial, lacing, data)
    ensures lacing[0..] == lacing && data[0..] == data && Midway(all, [], partial, lacing[0..], data[0..])
    ensures forall count: nat :: Heard([], count) == []
  {
    assert lacing[0..] == lacing && data[0..] == data;
  }

  lemma MidwayStep(all: Cut, done: seq<Packet>, partial: Packet, lacing: seq<byte>, data: seq<byte>, i: nat, at: nat)
    requires i < |lacing| && at <= |data| && |data| == at + Sum(lacing[i..])
    requires Midway(all, done, partial, lacing[i..], data[at..])
    ensures |data| == at + lacing[i] + Sum(lacing[i + 1..])
    ensures var packet := partial + data[at..at + lacing[i]];
      if lacing[i] < 255 then Midway(all, done + [packet], [], lacing[i + 1..], data[at + lacing[i]..])
      else Midway(all, done, packet, lacing[i + 1..], data[at + lacing[i]..])
  {
    SegmentsUnfold(partial, lacing, data, i, at);
    var packet := partial + data[at..at + lacing[i]];
    ConcatAssociates(done, [packet], Segments([], lacing[i + 1..], data[at + lacing[i]..]).packets);
  }

  lemma MidwayDone(all: Cut, done: seq<Packet>, partial: Packet, lacing: seq<byte>, data: seq<byte>)
    requires |lacing| == 0 && |data| == Sum(lacing) && Midway(all, done, partial, lacing, data)
    ensures all == Cut(done, partial)
  {
    assert done + [] == done;
  }

  lemma SegmentsUnfold(partial: Packet, lacing: seq<byte>, data: seq<byte>, i: nat, at: nat)
    requires i < |lacing| && at <= |data| && |data| == at + Sum(lacing[i..])
    ensures |data| == at + lacing[i] + Sum(lacing[i + 1..])
    ensures var packet := partial + data[at..at + lacing[i]];
      Segments(partial, lacing[i..], data[at..]) ==
      if lacing[i] < 255 then
        var c := Segments([], lacing[i + 1..], data[at + lacing[i]..]);
        Cut([packet] + c.packets, c.partial)
      else Segments(packet, lacing[i + 1..], data[at + lacing[i]..])
  {
    var len := lacing[i];
    assert lacing[i..][1..] == lacing[i + 1..];
    assert data[at..][len..] == data[at + len..];
    assert data[at..][..len] == data[at..at + len];
  }

  lemma {:induction false} HeardSnoc(packets: seq<Packet>, last: Packet, count: nat)
    ensures Heard(packets + [last], count)
         == Heard(packets, count) + (if count + |packets| + 1 > 2 && last != [] then [last] else [])
  {
    if packets != [] {
      assert (packets + [last])[1..] == packets[1..] + [last];
      HeardSnoc(packets[1..], last, count + 1);
    }
  }
}
