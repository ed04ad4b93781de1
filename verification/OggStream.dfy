/** The reader on streams made of whole pages: what it emits depends on the bytes, not on the chunks. */
module OggStream {
  import opened Bytes
  import opened OggReader
  import opened Options

  /** Pushing the chunks one after the other. */
  function PushAll(s: State, chunks: seq<seq<byte>>): (r: Step)
    decreases |chunks|
  {
    if chunks == [] then Step(s, []) else
      var before := PushAll(s, chunks[..|chunks| - 1]);
      var last := Scan(before.state.(buffer := before.state.buffer + chunks[|chunks| - 1]));
      Step(last.state, before.packets + last.packets)
  }

  method PushChunks(reader: OggPacketReader, chunks: seq<seq<byte>>) returns (packets: seq<Packet>)
    modifies reader
    ensures Step(reader.Current(), packets) == PushAll(old(reader.Current()), chunks)
  {
    hide Scan;
    packets := [];
    var i := 0;
    while i < |chunks|
      invariant 0 <= i <= |chunks|
      invariant Step(reader.Current(), packets) == PushAll(old(reader.Current()), chunks[..i])
    {
      assert chunks[..i + 1][..i] == chunks[..i];
      var heard := reader.Push(chunks[i]);
      packets := packets + heard;
      i := i + 1;
    }
    assert chunks[..i] == chunks;
  }

  // ---------------------------------------------------------------------------
  // One page
  // ---------------------------------------------------------------------------

  lemma WireFields(p: Page, rest: seq<byte>)
    requires p.Valid()
    ensures var b, d := Wire(p) + rest, 27 + |p.lacing|;
      && CaptureAt(b, 0) && b[26] == |p.lacing| && b[27..d] == p.lacing
      && b[d..d + |p.data|] == p.data && b[d + |p.data|..] == rest
  {
    var b, d := Wire(p) + rest, 27 + |p.lacing|;
    var front := CAPTURE + p.head + [|p.lacing|];
    assert |front| == 27 && Wire(p) == front + p.lacing + p.data;
    assert b[0..4] == CAPTURE;
    assert b[26] == front[26];
    assert b[27..d] == p.lacing;
    assert b[d..d + |p.data|] == p.data;
    assert b[d + |p.data|..] == rest;
  }

  /** A buffer that begins with a complete page loses exactly that page. */
  lemma ScanTakesPage(p: Page, rest: seq<byte>, partial: Packet, count: nat)
    requires p.Valid()
    ensures var c := Segments(partial, p.lacing, p.data);
      var r := Scan(State(rest, c.partial, count + |c.packets|));
      Scan(State(Wire(p) + rest, partial, count)) == Step(r.state, Heard(c.packets, count) + r.packets)
  {
    hide Scan, Segments, Heard, Wire;
    WireFields(p, rest);
    ScanTakes(State(Wire(p) + rest, partial, count));
  }

  /** A buffer that holds only the beginning of a page stays as it is. */
  lemma ScanKeepsBeginning(p: Page, s: State)
    requires p.Valid() && s.buffer <= Wire(p) && |s.buffer| < |Wire(p)|
    ensures Scan(s) == Step(s, [])
  {
    var b, w := s.buffer, Wire(p);
    if |b| >= 27 {
      WireFields(p, []);
      assert w + [] == w && b == w[..|b|];
      assert b[0..4] == w[0..4];
      if |b| >= 27 + b[26] as int {
        assert b[27..27 + b[26] as int] == w[27..27 + w[26] as int];
      }
      ScanStops(s);
    }
  }

  lemma FirstPage(pages: seq<Page>, b: seq<byte>)
    requires AllValid(pages) && pages != [] && b <= WireAll(pages)
    ensures |b| < |Wire(pages[0])| ==> b <= Wire(pages[0])
    ensures |b| >= |Wire(pages[0])| ==>
      var rest := b[|Wire(pages[0])|..];
      b == Wire(pages[0]) + rest && rest <= WireAll(pages[1..])
  {
    hide Wire;
    var w := Wire(pages[0]);
    assert WireAll(pages) == w + WireAll(pages[1..]);
    if |b| >= |w| {
      assert b[..|w|] == w;
    }
  }

  // ---------------------------------------------------------------------------
  // Chunks do not matter
  // ---------------------------------------------------------------------------

  /** Scanning early changes nothing: it is the same to scan now and again after more bytes, or only then. */
  lemma {:induction false} ScanInTwoParts(pages: seq<Page>, s: State, more: seq<byte>)
    requires AllValid(pages) && s.buffer + more <= WireAll(pages)
    ensures var first := Scan(s);
      var second := Scan(first.state.(buffer := first.state.buffer + more));
      Scan(s.(buffer := s.buffer + more)) == Step(second.state, first.packets + second.packets)
    decreases |pages|
  {
    hide Scan, Segments, Heard, Wire;
    if pages == [] {
      ScanStops(s);
      ScanStops(s.(buffer := s.buffer + more));
    } else {
      var p := pages[0];
      assert s.buffer <= WireAll(pages);
      FirstPage(pages, s.buffer);
      if |s.buffer| < |Wire(p)| {
        ScanKeepsBeginning(p, s);
      } else {
        var rest := s.buffer[|Wire(p)|..];
        FirstPage(pages, s.buffer + more);
        assert (s.buffer + more)[|Wire(p)|..] == rest + more;
        var c := Segments(s.partial, p.lacing, p.data);
        var next := State(rest, c.partial, s.count + |c.packets|);
        ScanTakesPage(p, rest, s.partial, s.count);
        ScanTakesPage(p, rest + more, s.partial, s.count);
        ScanInTwoParts(pages[1..], next, more);
        ConcatAssociates(Heard(c.packets, s.count), Scan(next).packets,
          Scan(Scan(next).state.(buffer := Scan(next).state.buffer + more)).packets);
      }
    }
  }

  /** On any beginning of a stream of whole pages, pushing the chunks is the same as pushing their
      concatenation at once. */
  lemma {:induction false} ChunksDoNotMatter(pages: seq<Page>, chunks: seq<seq<byte>>)
    requires AllValid(pages) && Flatten(chunks) <= WireAll(pages)
    ensures PushAll(INITIAL, chunks) == Scan(INITIAL.(buffer := Flatten(chunks)))
    decreases |chunks|
  {
    hide Scan, WireAll;
    if chunks == [] {
      ScanStops(INITIAL);
    } else {
      var front, last := chunks[..|chunks| - 1], chunks[|chunks| - 1];
      assert chunks == front + [last];
      FlattenSnoc(front, last);
      ChunksDoNotMatter(pages, front);
      ScanInTwoParts(pages, INITIAL.(buffer := Flatten(front)), last);
    }
  }

  // ---------------------------------------------------------------------------
  // What comes out is the packets
  // ---------------------------------------------------------------------------

  lemma {:induction false} SegmentsAppend(partial: Packet, l1: seq<byte>, d1: seq<byte>, l2: seq<byte>, d2: seq<byte>)
    requires |d1| == Sum(l1) && |d2| == Sum(l2)
    ensures Sum(l1 + l2) == |d1 + d2|
    ensures var a := Segments(partial, l1, d1);
      var b := Segments(a.partial, l2, d2);
      Segments(partial, l1 + l2, d1 + d2) == Cut(a.packets + b.packets, b.partial)
    decreases |l1|
  {
    SumAppend(l1, l2);
    if l1 == [] {
      assert l1 + l2 == l2 && d1 + d2 == d2;
    } else {
      var len := l1[0];
      LongerData(l1, d1, l2, d2);
      var next := if len < 255 then [] else partial + d1[..len];
      SegmentsAppend(next, l1[1..], d1[len..], l2, d2);
      if len < 255 {
        var c := Segments([], l1[1..], d1[len..]);
        ConcatAssociates([partial + d1[..len]], c.packets, Segments(c.partial, l2, d2).packets);
      }
    }
  }

  lemma LongerData(l1: seq<byte>, d1: seq<byte>, l2: seq<byte>, d2: seq<byte>)
    requires l1 != [] && |d1| == Sum(l1)
    ensures var len := l1[0];
      && len <= |d1| && (l1 + l2)[0] == len && (l1 + l2)[1..] == l1[1..] + l2
      && (d1 + d2)[..len] == d1[..len] && (d1 + d2)[len..] == d1[len..] + d2
  {
  }

  lemma {:induction false} HeardAppend(a: seq<Packet>, b: seq<Packet>, count: nat)
    ensures Heard(a + b, count) == Heard(a, count) + Heard(b, count + |a|)
    decreases |a|
  {
    if a == [] {
      assert a + b == b;
    } else {
      assert (a + b)[1..] == a[1..] + b;
      HeardAppend(a[1..], b, count + 1);
    }
  }

  lemma {:induction false} DataMatchesLacing(pages: seq<Page>)
    requires AllValid(pages)
    ensures |AllData(pages)| == Sum(AllLacing(pages))
    decreases |pages|
  {
    if pages != [] {
      assert pages[0] in pages;
      DataMatchesLacing(pages[1..]);
      SumAppend(pages[0].lacing, AllLacing(pages[1..]));
    }
  }

  /** Page boundaries do not matter either: packets may begin on one page and end on another. */
  lemma {:induction false} ScanWholePages(pages: seq<Page>, partial: Packet, count: nat)
    requires AllValid(pages)
    ensures |AllData(pages)| == Sum(AllLacing(pages))
    ensures var c := Segments(partial, AllLacing(pages), AllData(pages));
      Scan(State(WireAll(pages), partial, count))
      == Step(State([], c.partial, count + |c.packets|), Heard(c.packets, count))
    decreases |pages|
  {
    hide Scan, Wire, Segments, Heard;
    DataMatchesLacing(pages);
    if pages == [] {
      ScanStops(State([], partial, count));
      SegmentsOfNothing(partial, count);
    } else {
      var p, rest := pages[0], pages[1..];
      assert p in pages;
      DataMatchesLacing(rest);
      var c := Segments(partial, p.lacing, p.data);
      ScanTakesPage(p, WireAll(rest), partial, count);
      ScanWholePages(rest, c.partial, count + |c.packets|);
      SegmentsAppend(partial, p.lacing, p.data, AllLacing(rest), AllData(rest));
      HeardAppend(c.packets, Segments(c.partial, AllLacing(rest), AllData(rest)).packets, count);
    }
  }

  lemma SegmentsOfNothing(partial: Packet, count: nat)
    ensures Segments(partial, [], []) == Cut([], partial) && Heard([], count) == []
  {}

  // A packet that is already begun is completed by the first run of lacing values.
  lemma {:induction false} SegmentsFirstPacket(partial: Packet, lacing: seq<byte>, data: seq<byte>)
    requires |data| == Sum(lacing)
    ensures var n, m := FirstRun(lacing), FirstLength(lacing);
      Segments(partial, lacing, data).packets ==
      if n == 0 then [] else [partial + data[..m]] + Segments([], lacing[n..], data[m..]).packets
    decreases |lacing|
  {
    if lacing != [] && lacing[0] == 255 {
      SegmentsFirstPacket(partial + data[..255], lacing[1..], data[255..]);
      LongerFirstPacket(partial, lacing, data);
    } else if lacing != [] {
      assert lacing[..1][1..] == [];
    }
  }

  // A leading 255 lengthens the first packet.
  lemma LongerFirstPacket(partial: Packet, lacing: seq<byte>, data: seq<byte>)
    requires |data| == Sum(lacing) && lacing != [] && lacing[0] == 255
    ensures FirstRun(lacing) == if FirstRun(lacing[1..]) == 0 then 0 else 1 + FirstRun(lacing[1..])
    ensures FirstRun(lacing) != 0 ==>
      var n, m := FirstRun(lacing), FirstLength(lacing);
      && 255 <= m <= |data| && FirstLength(lacing[1..]) == m - 255
      && lacing[1..][n - 1..] == lacing[n..] && data[255..][m - 255..] == data[m..]
      && partial + data[..255] + data[255..][..m - 255] == partial + data[..m]
  {
    var n, m := FirstRun(lacing), FirstLength(lacing);
    if n != 0 {
      assert lacing[..n][1..] == lacing[1..][..n - 1] && lacing[1..][n - 1..] == lacing[n..];
    }
  }

  lemma {:induction false} SegmentsArePackets(lacing: seq<byte>, data: seq<byte>)
    requires |data| == Sum(lacing)
    ensures Segments([], lacing, data).packets == Packets(lacing, data)
    decreases |lacing|
  {
    SegmentsFirstPacket([], lacing, data);
    var n, m := FirstRun(lacing), FirstLength(lacing);
    if n != 0 {
      SegmentsArePackets(lacing[n..], data[m..]);
      assert [] + data[..m] == data[..m];
    }
  }

  lemma {:induction false} HeardIsAudio(packets: seq<Packet>, count: nat)
    ensures count >= 2 ==> Heard(packets, count) == NonEmpty(packets)
    ensures count == 0 ==> Heard(packets, count) == Audio(packets)
    decreases |packets|
  {
    if packets != [] {
      HeardIsAudio(packets[1..], count + 1);
      if count == 0 && |packets| > 1 {
        HeardIsAudio(packets[2..], 2);
        assert packets[1..][1..] == packets[2..];
      }
    }
  }

  /** For every stream of whole pages, however it is cut into chunks, the reader emits exactly the non-empty
      packets after the first two, in order, and keeps no bytes back. */
  lemma ReaderEmitsThePackets(pages: seq<Page>, chunks: seq<seq<byte>>)
    requires AllValid(pages) && Flatten(chunks) == WireAll(pages)
    ensures |AllData(pages)| == Sum(AllLacing(pages))
    ensures PushAll(INITIAL, chunks).packets == Audio(Packets(AllLacing(pages), AllData(pages)))
    ensures PushAll(INITIAL, chunks).state.buffer == []
  {
    hide Scan, Segments, Heard, Packets, Audio, PushAll;
    ChunksDoNotMatter(pages, chunks);
    ScanWholePages(pages, [], 0);
    SegmentsArePackets(AllLacing(pages), AllData(pages));
    HeardIsAudio(Packets(AllLacing(pages), AllData(pages)), 0);
  }

  // ---------------------------------------------------------------------------
  // Bytes between pages
  // ---------------------------------------------------------------------------

  lemma FindIs(b: seq<byte>, at: nat)
    requires at <= |b| && (at < |b| ==> CaptureAt(b, at)) && forall i: nat :: i < at ==> !CaptureAt(b, i)
    ensures Find(b, 0) == at
  {}

  // In front of position n, captures are the same in a prefix that reaches far enough.
  lemma CapturesOfPrefix(b: seq<byte>, n: nat)
    requires n <= |b|
    ensures forall i: nat :: CaptureAt(b[..n], i) <==> i + 4 <= n && CaptureAt(b, i)
  {
    forall i: nat
      ensures CaptureAt(b[..n], i) <==> i + 4 <= n && CaptureAt(b, i)
    {
      if i + 4 <= n { assert b[..n][i..i + 4] == b[i..i + 4]; }
    }
  }

  lemma {:induction false} SegmentsMoveOn(partial: Packet, lacing: seq<byte>, data: seq<byte>)
    requires |data| == Sum(lacing) && lacing != []
    ensures var c := Segments(partial, lacing, data);
      c.packets != [] || |c.partial| > |partial|
    decreases |lacing|
  {
    var packet := partial + data[..lacing[0]];
    if lacing[0] == 255 && |lacing| > 1 {
      SegmentsMoveOn(packet, lacing[1..], data[255..]);
    }
  }

  // The buffer is only garbage: a full reader drops it.
  lemma ScanDropsGarbage(s: State)
    requires Find(s.buffer, 0) == |s.buffer|
    ensures Scan(s) == Step(if |s.buffer| < 27 then s else s.(buffer := []), [])
  {
    hide Scan, Find;
    ScanStops(s);
    if |s.buffer| >= 27 {
      ScanSkips(s);
      assert s.buffer[|s.buffer|..] == [];
      ScanStops(s.(buffer := []));
    }
  }

  lemma ScanOnePage(p: Page, partial: Packet, count: nat)
    requires p.Valid()
    ensures var c := Segments(partial, p.lacing, p.data);
      Scan(State(Wire(p), partial, count)) == Step(State([], c.partial, count + |c.packets|), Heard(c.packets, count))
  {
    hide Scan, Segments, Heard, Wire;
    var c := Segments(partial, p.lacing, p.data);
    ScanTakesPage(p, [], partial, count);
    assert Wire(p) + [] == Wire(p);
    ScanStops(State([], c.partial, count + |c.packets|));
    assert Heard(c.packets, count) + [] == Heard(c.packets, count);
  }

  /** Receiving b and then c is the same as receiving both at once. */
  ghost predicate CutIsHarmless(b: seq<byte>, c: seq<byte>, partial: Packet, count: nat)
  {
    var first := Scan(State(b, partial, count));
    var second := Scan(first.state.(buffer := first.state.buffer + c));
    Scan(State(b + c, partial, count)) == Step(second.state, first.packets + second.packets)
  }

  /** The bytes without a capture pattern that a pass over the buffer drops at its end. */
  function Residue(s: State): (r: Option<seq<byte>>)
    decreases |s.buffer|
  {
    if |s.buffer| < 27 then None else
      var b := s.buffer[Find(s.buffer, 0)..];
      if b == [] then Some(s.buffer)
      else if !HoldsPage(b) then None
      else
        var c := Segments(s.partial, b[27..27 + b[26] as int], b[27 + b[26] as int..PageLength(b)]);
        Residue(State(b[PageLength(b)..], c.partial, s.count + |c.packets|))
  }

  /** On any bytes whatever: what comes later is scanned behind what an earlier pass kept, and behind what it dropped
      if all had come at once. */
  lemma {:induction false} ScanBehind(s: State, more: seq<byte>)
    ensures var first, r := Scan(s), Residue(s);
      var kept := if r.Some? then r.value else first.state.buffer;
      var rest := Scan(first.state.(buffer := kept + more));
      && (r.Some? ==> first.state.buffer == [])
      && Scan(s.(buffer := s.buffer + more)) == Step(rest.state, first.packets + rest.packets)
    decreases |s.buffer|
  {
    hide Scan, Segments, Heard, Find, PageLength, HoldsPage;
    if |s.buffer| < 27 {
      ScanStops(s);
    } else {
      var start := Find(s.buffer, 0);
      var b := s.buffer[start..];
      if b == [] {
        ScanDropsGarbage(s);
      } else {
        FindBehind(s.buffer, more);
        ScanSkips(s);
        ScanSkips(s.(buffer := s.buffer + more));
        assert (s.buffer + more)[start..] == b + more;
        FindAtFront(s.buffer, start);
        FindBehind(b, more);
        ScanPageBehind(s.(buffer := b), more);
        if HoldsPage(b) {
          var d := 27 + b[26] as int;
          PageInside(b);
          var c := Segments(s.partial, b[27..d], b[d..PageLength(b)]);
          var next := State(b[PageLength(b)..], c.partial, s.count + |c.packets|);
          ScanBehind(next, more);
          Regroup(Heard(c.packets, s.count), Scan(next), Residue(next), more);
        }
      }
    }
  }

  // The packets of a page come in front of whatever the passes over the rest give.
  lemma Regroup(heard: seq<Packet>, first: Step, r: Option<seq<byte>>, more: seq<byte>)
    ensures var kept := if r.Some? then r.value else first.state.buffer;
      var rest := Scan(first.state.(buffer := kept + more));
      heard + (first.packets + rest.packets) == (heard + first.packets) + rest.packets
  {
    hide Scan;
    var kept := if r.Some? then r.value else first.state.buffer;
    ConcatAssociates(heard, first.packets, Scan(first.state.(buffer := kept + more)).packets);
  }

  lemma PageInside(b: seq<byte>)
    requires HoldsPage(b)
    ensures |b| >= 27 && |b| >= 27 + b[26] as int && 0 < PageLength(b) <= |b|
    ensures var d := 27 + b[26] as int;
      d <= PageLength(b) && |b[d..PageLength(b)]| == Sum(b[27..d])
  {}

  lemma FindBehind(b: seq<byte>, more: seq<byte>)
    requires Find(b, 0) < |b|
    ensures Find(b + more, 0) == Find(b, 0)
  {
    hide Find;
    PrefixOfSum(b, more);
    FindInPrefix(b + more, |b|);
  }

  lemma PrefixOfSum(b: seq<byte>, more: seq<byte>)
    ensures (b + more)[..|b|] == b
  {}

  // A pass over a buffer that begins with a capture pattern.
  lemma ScanPageBehind(s: State, more: seq<byte>)
    requires |s.buffer| > 0 && Find(s.buffer, 0) == 0 && Find(s.buffer + more, 0) == 0
    ensures !HoldsPage(s.buffer) ==> Scan(s) == Step(s, [])
    ensures HoldsPage(s.buffer) ==>
      var b := s.buffer;
      && |b| >= 27 && |b| >= 27 + b[26] as int && 27 + b[26] as int <= PageLength(b) <= |b|
      && |b[27 + b[26] as int..PageLength(b)]| == Sum(b[27..27 + b[26] as int])
      && var c := Segments(s.partial, b[27..27 + b[26] as int], b[27 + b[26] as int..PageLength(b)]);
        var next := State(b[PageLength(b)..], c.partial, s.count + |c.packets|);
        var longer := Scan(next.(buffer := next.buffer + more));
        && Scan(s) == Step(Scan(next).state, Heard(c.packets, s.count) + Scan(next).packets)
        && Scan(s.(buffer := b + more)) == Step(longer.state, Heard(c.packets, s.count) + longer.packets)
  {
    hide Scan, Segments, Heard, Find;
    ScanStops(s);
    if HoldsPage(s.buffer) {
      SamePage(s.buffer, more);
      ScanTakes(s);
      ScanTakes(s.(buffer := s.buffer + more));
    }
  }

  lemma SamePage(b: seq<byte>, more: seq<byte>)
    requires HoldsPage(b)
    ensures var l, d := b + more, 27 + b[26] as int;
      && HoldsPage(l) && l[26] == b[26] && PageLength(l) == PageLength(b)
      && l[27..d] == b[27..d] && l[d..PageLength(b)] == b[d..PageLength(b)]
      && l[PageLength(b)..] == b[PageLength(b)..] + more
  {
    assert (b + more)[27..27 + b[26] as int] == b[27..27 + b[26] as int];
  }

  /** For any bytes: a cut is harmless exactly when the reader had dropped nothing there, or what follows is scanned
      behind the dropped bytes as it is alone. */
  lemma CutMatters(b: seq<byte>, c: seq<byte>, partial: Packet, count: nat)
    ensures var s := State(b, partial, count);
      var first, r := Scan(s).state, Residue(s);
      CutIsHarmless(b, c, partial, count)
      <==> (r.None? || Scan(first.(buffer := r.value + c)) == Scan(first.(buffer := c)))
  {
    hide Scan, Residue;
    var s := State(b, partial, count);
    ScanBehind(s, c);
    assert [] + c == c;
    var first := Scan(s);
    if Residue(s).Some? {
      SameTail(first.packets, Scan(first.state.(buffer := Residue(s).value + c)).packets,
               Scan(first.state.(buffer := c)).packets);
    }
  }

  lemma SameTail(a: seq<Packet>, x: seq<Packet>, y: seq<Packet>)
    ensures a + x == a + y <==> x == y
  {
    assert (a + x)[|a|..] == x && (a + y)[|a|..] == y;
  }

  /** That is so when no pattern begins in the dropped bytes and at least 27 bytes follow. */
  lemma NothingCut(r: seq<byte>, c: seq<byte>, s: State)
    requires |c| >= 27 && Find(r + c, 0) >= |r|
    ensures Scan(s.(buffer := r + c)) == Scan(s.(buffer := c))
  {
    hide Scan, Find;
    ScanSkips(s.(buffer := r + c));
    ScanSkips(s.(buffer := c));
    FindInTail(r, c);
    assert (r + c)[Find(r + c, 0)..] == c[Find(c, 0)..];
  }

  lemma FindInTail(r: seq<byte>, c: seq<byte>)
    requires Find(r + c, 0) >= |r|
    ensures Find(r + c, 0) == |r| + Find(c, 0)
  {
    hide Find, CaptureAt;
    CapturesOfTail(r, c);
    var at := Find(r + c, 0) - |r|;
    assert at < |c| ==> CaptureAt(r + c, |r| + at);
    forall i: nat | i < at
      ensures !CaptureAt(c, i)
    {
      assert !CaptureAt(r + c, |r| + i);
    }
    FindIs(c, at);
  }

  lemma CapturesOfTail(r: seq<byte>, c: seq<byte>)
    ensures forall i: nat :: CaptureAt(c, i) <==> CaptureAt(r + c, |r| + i)
  {
    forall i: nat
      ensures CaptureAt(c, i) <==> CaptureAt(r + c, |r| + i)
    {
      if i + 4 <= |c| { assert (r + c)[|r| + i..|r| + i + 4] == c[i..i + 4]; }
    }
  }

  /** Chunk by chunk, no pass drops anything. */
  ghost predicate NothingDropped(chunks: seq<seq<byte>>)
  {
    forall i :: 0 < i < |chunks| ==> Residue(INITIAL.(buffer := Flatten(chunks[..i]))).None?
  }

  /** Any bytes in any chunks: as long as no pass but the last drops anything, chunks do not matter, whatever lies
      between the pages. */
  lemma {:induction false} ChunksOfAnything(chunks: seq<seq<byte>>)
    requires NothingDropped(chunks)
    ensures PushAll(INITIAL, chunks) == Scan(INITIAL.(buffer := Flatten(chunks)))
    decreases |chunks|
  {
    hide Scan, Residue;
    if chunks == [] {
      ScanStops(INITIAL);
    } else {
      var front, last := chunks[..|chunks| - 1], chunks[|chunks| - 1];
      assert forall i :: 0 <= i <= |front| ==> front[..i] == chunks[..i];
      FlattenSnoc(front, last);
      assert front + [last] == chunks;
      ChunksOfAnything(front);
      NothingYet(front);
      ScanBehind(INITIAL.(buffer := Flatten(front)), last);
    }
  }

  lemma NothingYet(front: seq<seq<byte>>)
    requires front == [] || Residue(INITIAL.(buffer := Flatten(front))).None?
    ensures Residue(INITIAL.(buffer := Flatten(front))).None?
  {}

  /** A stretch of other bytes in front of every page. */
  function Interleaved(stretches: seq<seq<byte>>, pages: seq<Page>): (b: seq<byte>)
    requires |stretches| == |pages| && AllValid(pages)
    decreases |pages|
  {
    if pages == [] then [] else stretches[0] + (Wire(pages[0]) + Interleaved(stretches[1..], pages[1..]))
  }

  /** No stretch holds a capture pattern or the beginning of one. */
  ghost predicate Apart(stretches: seq<seq<byte>>, pages: seq<Page>)
    requires |stretches| == |pages| && AllValid(pages)
    decreases |pages|
  {
    pages == [] ||
    (Find(Interleaved(stretches, pages), 0) == |stretches[0]| && Apart(stretches[1..], pages[1..]))
  }

  lemma {:induction false} ScanPassesStretches(stretches: seq<seq<byte>>, pages: seq<Page>, partial: Packet, count: nat)
    requires |stretches| == |pages| && AllValid(pages) && Apart(stretches, pages)
    ensures Scan(State(Interleaved(stretches, pages), partial, count)) == Scan(State(WireAll(pages), partial, count))
    decreases |pages|
  {
    hide Scan, Find, Segments, Heard, Wire;
    if pages != [] {
      var p := pages[0];
      var rest := Interleaved(stretches[1..], pages[1..]);
      assert p in pages && p.Valid();
      var c := Segments(partial, p.lacing, p.data);
      GarbageInFront(stretches[0], Wire(p) + rest, partial, count);
      ScanTakesPage(p, rest, partial, count);
      ScanTakesPage(p, WireAll(pages[1..]), partial, count);
      ScanPassesStretches(stretches[1..], pages[1..], c.partial, count + |c.packets|);
    }
  }

  /** Pages with other bytes between them, in any chunks with which no pass drops anything: the reader emits the
      packets of the pages. */
  lemma ReaderPassesStretches(stretches: seq<seq<byte>>, pages: seq<Page>, chunks: seq<seq<byte>>)
    requires |stretches| == |pages| && AllValid(pages) && Apart(stretches, pages)
    requires Flatten(chunks) == Interleaved(stretches, pages) && NothingDropped(chunks)
    ensures |AllData(pages)| == Sum(AllLacing(pages))
    ensures PushAll(INITIAL, chunks).packets == Audio(Packets(AllLacing(pages), AllData(pages)))
  {
    hide Scan, Segments, Heard, Packets, Audio, PushAll, Interleaved, Apart, NothingDropped;
    ChunksOfAnything(chunks);
    ScanPassesStretches(stretches, pages, [], 0);
    ScanWholePages(pages, [], 0);
    SegmentsArePackets(AllLacing(pages), AllData(pages));
    HeardIsAudio(Packets(AllLacing(pages), AllData(pages)), 0);
  }

  /** Garbage in front of a page. Cutting the stream inside the page is harmless unless the cut goes through the
      capture pattern and the reader already holds 27 bytes: then it drops the beginning of the pattern with the
      garbage, and the page is lost. (The garbage holds no pattern of its own, nor does what remains of a page whose
      pattern is cut.) */
  lemma CutThroughCapture(g: seq<byte>, p: Page, k: nat, partial: Packet, count: nat)
    requires p.Valid() && k <= |Wire(p)| && Find(g + Wire(p), 0) == |g|
    requires 0 < k < 4 ==> Find(Wire(p)[k..], 0) == |Wire(p)| - k
    ensures CutIsHarmless(g + Wire(p)[..k], Wire(p)[k..], partial, count) <==> k == 0 || k >= 4 || |g| + k < 27
  {
    hide Wire, Find, CutIsHarmless;
    var w := Wire(p);
    if |g| + k < 27 {
      ShortCut(g + w[..k], w[k..], partial, count);
    } else if k == 0 {
      CutDropsGarbage(g, w, 0);
      assert g + w[..0] == g && w[0..] == w;
      CutInFront(g, w, partial, count);
    } else if k < 4 {
      CutDropsGarbage(g, w, k);
      PrefixOfAppend(g, w, k);
      assert (g + w)[|g|..] == w;
      PageIsLost(g + w[..k], w[k..], g, p, partial, count);
    } else {
      CutBehindCapture(g, p, k, partial, count);
    }
  }

  lemma NoCaptureAt(b: seq<byte>, i: nat)
    requires i < |b| && b[i] != CAPTURE[0]
    ensures !CaptureAt(b, i)
  {
    if i + 4 <= |b| { assert b[i..i + 4][0] == b[i]; }
  }

  const NOISE: seq<byte> := [0, 0, 0, 0, 0, 0, 0, 0, 0, 0, 0, 0, 0, 0, 0, 0, 0, 0, 0, 0, 0, 0, 0, 0, 0, 0, 0]

  /** An input: 27 zero bytes, a page with one packet of one byte, and a cut in the middle of its capture pattern. */
  lemma CutThroughCaptureLosesAPage(partial: Packet, count: nat)
    ensures var p := Page(NOISE[..22], [1], [7]);
      && p.Valid() && !CutIsHarmless(NOISE + Wire(p)[..2], Wire(p)[2..], partial, count)
  {
    hide CutIsHarmless, Find;
    var p := Page(NOISE[..22], [1], [7]);
    assert Sum([1]) == 1;
    var w := Wire(p);
    assert forall i :: 4 <= i < |w| ==> w[i] in {0, 1, 7};
    var b := NOISE + w;
    assert b[27..31] == CAPTURE;
    forall i: nat | i < 27
      ensures !CaptureAt(b, i)
    {
      NoCaptureAt(b, i);
    }
    FindIs(b, 27);
    var c := w[2..];
    forall i: nat | i < |c|
      ensures !CaptureAt(c, i)
    {
      assert c[i] == w[i + 2];
      NoCaptureAt(c, i);
    }
    FindIs(c, |c|);
    CutThroughCapture(NOISE, p, 2, partial, count);
  }

  lemma ShortCut(b: seq<byte>, c: seq<byte>, partial: Packet, count: nat)
    requires |b| < 27
    ensures CutIsHarmless(b, c, partial, count)
  {
    hide Scan;
    ScanStops(State(b, partial, count));
  }

  lemma CutInFront(g: seq<byte>, w: seq<byte>, partial: Packet, count: nat)
    requires |g| >= 27 && Find(g, 0) == |g| && Find(g + w, 0) == |g|
    ensures CutIsHarmless(g, w, partial, count)
  {
    hide Scan, Find;
    ScanDropsGarbage(State(g, partial, count));
    ScanSkips(State(g + w, partial, count));
    assert (g + w)[|g|..] == w && [] + w == w;
  }

  lemma PageIsLost(b: seq<byte>, c: seq<byte>, g: seq<byte>, p: Page, partial: Packet, count: nat)
    requires p.Valid() && |b| >= 27 && Find(b, 0) == |b| && b + c == g + Wire(p) && c != []
    requires Find(b + c, 0) == |g| && (b + c)[|g|..] == Wire(p)
    requires Find(c, 0) == |c| && |c| + 4 > |Wire(p)| > |c|
    ensures !CutIsHarmless(b, c, partial, count)
  {
    hide Scan, Find, Segments, Heard, Wire;
    ScanDropsGarbage(State(b, partial, count));
    assert [] + c == c;
    ScanDropsGarbage(State(c, partial, count));
    ScanSkips(State(b + c, partial, count));
    ScanOnePage(p, partial, count);
    if p.lacing != [] { SegmentsMoveOn(partial, p.lacing, p.data); }
    else { EmptyPage(p); }
  }

  lemma EmptyPage(p: Page)
    requires p.Valid() && p.lacing == []
    ensures |Wire(p)| == 27
  {
  }

  lemma GarbageInFront(g: seq<byte>, x: seq<byte>, partial: Packet, count: nat)
    requires |g| + |x| >= 27 && Find(g + x, 0) == |g|
    ensures Scan(State(g + x, partial, count)) == Scan(State(x, partial, count))
  {
    hide Scan, Find;
    ScanSkips(State(g + x, partial, count));
    assert (g + x)[|g|..] == x;
  }

  lemma CutBehindCapture(g: seq<byte>, p: Page, k: nat, partial: Packet, count: nat)
    requires p.Valid() && 4 <= k <= |Wire(p)| && Find(g + Wire(p), 0) == |g| && |g| + k >= 27
    ensures CutIsHarmless(g + Wire(p)[..k], Wire(p)[k..], partial, count)
  {
    hide Scan, Find, Wire, CutIsHarmless;
    var w := Wire(p);
    CutKeepsCapture(g, w, k);
    GarbageInFront(g, w[..k], partial, count);
    GarbageInFront(g, w, partial, count);
    CutInsidePage(p, k, partial, count);
    PrefixOfAppend(g, w, k);
    SameCut(w[..k], g + w[..k], w[k..], partial, count);
  }

  lemma SameCut(b: seq<byte>, longer: seq<byte>, c: seq<byte>, partial: Packet, count: nat)
    requires CutIsHarmless(b, c, partial, count)
    requires Scan(State(longer, partial, count)) == Scan(State(b, partial, count))
    requires Scan(State(longer + c, partial, count)) == Scan(State(b + c, partial, count))
    ensures CutIsHarmless(longer, c, partial, count)
  {
    hide Scan;
  }

  lemma CutInsidePage(p: Page, k: nat, partial: Packet, count: nat)
    requires p.Valid() && k <= |Wire(p)|
    ensures CutIsHarmless(Wire(p)[..k], Wire(p)[k..], partial, count)
  {
    hide Scan, Wire;
    var w := Wire(p);
    assert WireAll([p]) == w + WireAll([p][1..]) == w;
    assert w[..k] + w[k..] == w;
    ScanInTwoParts([p], State(w[..k], partial, count), w[k..]);
  }

  lemma FindInPrefix(b: seq<byte>, n: nat)
    requires n <= |b|
    ensures Find(b[..n], 0) == if Find(b, 0) + 4 <= n then Find(b, 0) else n
  {
    hide Find, CaptureAt;
    CapturesOfPrefix(b, n);
    var at := Find(b, 0);
    if at + 4 <= n {
      assert CaptureAt(b, at);
      FindIs(b[..n], at);
    } else {
      FindIs(b[..n], n);
    }
  }

  lemma PrefixOfAppend(g: seq<byte>, w: seq<byte>, k: nat)
    requires k <= |w|
    ensures (g + w)[..|g| + k] == g + w[..k] && g + w[..k] + w[k..] == g + w && w[..k] + w[k..] == w
  {}

  lemma CutDropsGarbage(g: seq<byte>, w: seq<byte>, k: nat)
    requires k <= |w| && k < 4 && Find(g + w, 0) == |g|
    ensures Find(g + w[..k], 0) == |g + w[..k]|
  {
    hide Find, CaptureAt;
    PrefixOfAppend(g, w, k);
    FindInPrefix(g + w, |g| + k);
  }

  lemma CutKeepsCapture(g: seq<byte>, w: seq<byte>, k: nat)
    requires 4 <= k <= |w| && Find(g + w, 0) == |g|
    ensures Find(g + w[..k], 0) == |g|
  {
    hide Find, CaptureAt;
    PrefixOfAppend(g, w, k);
    FindInPrefix(g + w, |g| + k);
  }
}
