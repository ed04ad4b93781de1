/** Length-prefixed MessagePack frames between PilotUI and PilotCore, and their incremental reader. */
module PilotFrames {
  import opened Bytes
  import opened MessagePack

  const MAX_BODY := 1024 * 1024

  /** A frame is a little-endian body length and the body. */
  function Frame(body: seq<byte>): (b: seq<byte>)
    requires |body| < 0x1_0000_0000
  {
    LE32(|body|) + body
  }

  /** makeMessagePackFrame: the message [type, payload]; it throws when the payload cannot be encoded. */
  function MakeFrame(kind: int, payload: Value): (r: Result<seq<byte>>)
  {
    var body :- Encode(Arr([Int(kind), payload]));
    if |body| < 0x1_0000_0000 then Ok(Frame(body)) else Throws
  }

  // ---------------------------------------------------------------------------
  // The reader as a function of the bytes it holds
  // ---------------------------------------------------------------------------

  datatype Taken = Taken(pending: seq<byte>, messages: seq<Value>)

  predicate GoodLength(n: nat) { 1 <= n <= MAX_BODY }

  function Observe(body: seq<byte>): (messages: seq<Value>)
  {
    var v := DecodeWhole(body);
    if v.Ok? then [v.value] else []
  }

  function Take(pending: seq<byte>): (t: Taken)
    decreases |pending|
  {
    if |pending| < 4 then Taken(pending, []) else
      var n := U32LE(pending, 0);
      if !GoodLength(n) then Taken([], [])
      else if |pending| < n + 4 then Taken(pending, [])
      else
        var t := Take(pending[n + 4..]);
        Taken(t.pending, Observe(pending[4..n + 4]) + t.messages)
  }

  /** No length field that the bytes contain is out of range. */
  predicate Clean(stream: seq<byte>)
    decreases |stream|
  {
    |stream| < 4 ||
    var n := U32LE(stream, 0);
    GoodLength(n) && (|stream| < n + 4 || Clean(stream[n + 4..]))
  }

  /** A proper prefix of a frame. */
  predicate Incomplete(pending: seq<byte>)
  {
    |pending| < 4 || (GoodLength(U32LE(pending, 0)) && |pending| < U32LE(pending, 0) + 4)
  }

  class FrameReader {
    var pending: seq<byte>

    constructor ()
      ensures pending == []
    {
      pending := [];
    }

    /** Returns the messages handed to the callback, in order. */
    method Push(data: seq<byte>) returns (messages: seq<Value>)
      requires Incomplete(pending)
      modifies this
      ensures Taken(pending, messages) == Take(old(pending) + data)
      ensures Incomplete(pending)
    {
      hide Take, Observe, U32LE, Incomplete, DecodeWhole;
      messages := [];
      TakeIncomplete(pending);
      assert pending + [] == pending && [] + data == data;
      if data == [] { return; }
      pending := if pending != [] then pending + data else data;
      ghost var all := Take(pending);
      TakeIncomplete(pending);
      while |pending| >= 4
        invariant all == Taken(Take(pending).pending, messages + Take(pending).messages)
        invariant |pending| < 4 ==> Take(pending) == Taken(pending, [])
        decreases |pending|
      {
        TakeIncomplete(pending);
        TakeFrame(pending);
        var bodyLength := U32LE(pending, 0);
        if bodyLength < 1 || bodyLength > MAX_BODY {
          pending := [];
          TakeIncomplete(pending);
          return;
        }
        if |pending| < bodyLength + 4 { return; }
        var body := pending[4..bodyLength + 4];
        pending := pending[bodyLength + 4..];
        TakeIncomplete(pending);
        ConcatAssociates(messages, Observe(body), Take(pending).messages);
        var v := DecodeMessagePack(body);
        ObserveIs(body);
        if v.Ok? { messages := messages + [v.value]; }
      }
      TakeIncomplete(pending);
    }
  }

  lemma TakeIncomplete(pending: seq<byte>)
    ensures Incomplete(pending) ==> Take(pending) == Taken(pending, [])
    ensures |pending| < 4 ==> Incomplete(pending)
    ensures |pending| >= 4 && GoodLength(U32LE(pending, 0)) && |pending| < U32LE(pending, 0) + 4 ==> Incomplete(pending)
  {}

  lemma TakeFrame(pending: seq<byte>)
    requires |pending| >= 4
    ensures var n := U32LE(pending, 0);
      && (!GoodLength(n) ==> Take(pending) == Taken([], []))
      && (GoodLength(n) && |pending| >= n + 4 ==>
            Take(pending) == Taken(Take(pending[n + 4..]).pending,
                                   Observe(pending[4..n + 4]) + Take(pending[n + 4..]).messages))
  {}

  lemma ObserveIs(body: seq<byte>)
    ensures Observe(body) == if DecodeWhole(body).Ok? then [DecodeWhole(body).value] else []
  {}

  // ---------------------------------------------------------------------------
  // What chunking can and cannot change
  // ---------------------------------------------------------------------------

  lemma {:induction false} TakeLeavesIncomplete(stream: seq<byte>)
    ensures Incomplete(Take(stream).pending)
    decreases |stream|
  {
    if |stream| >= 4 {
      var n := U32LE(stream, 0);
      if GoodLength(n) && |stream| >= n + 4 { TakeLeavesIncomplete(stream[n + 4..]); }
    }
  }

  lemma LengthField(a: seq<byte>, b: seq<byte>)
    requires |a| >= 4
    ensures U32LE(a + b, 0) == U32LE(a, 0)
  {}

  /** Taking early and again after more bytes is the same as taking once, as long as the first part is clean. When it
      is not, one pass drops the second part too, while two passes start afresh with it. */
  lemma {:induction false} TakeInTwoParts(a: seq<byte>, b: seq<byte>)
    ensures var first := Take(a);
      var second := Take(first.pending + b);
      Take(a + b) == if Clean(a) then Taken(second.pending, first.messages + second.messages) else first
    decreases |a|
  {
    hide Observe, U32LE;
    if |a| >= 4 {
      var n := U32LE(a, 0);
      LengthField(a, b);
      TakeFrame(a);
      TakeFrame(a + b);
      if GoodLength(n) && |a| >= n + 4 {
        assert (a + b)[n + 4..] == a[n + 4..] + b;
        assert (a + b)[4..n + 4] == a[4..n + 4];
        TakeInTwoParts(a[n + 4..], b);
        var first := Take(a[n + 4..]);
        ConcatAssociates(Observe(a[4..n + 4]), first.messages, Take(first.pending + b).messages);
      }
    }
  }

  /** So a cut changes the outcome exactly when a bad length came before it and the bytes after it would have
      meant something to a fresh reader. */
  lemma CutMatters(a: seq<byte>, b: seq<byte>)
    ensures var first := Take(a);
      var second := Take(first.pending + b);
      Take(a + b) == Taken(second.pending, first.messages + second.messages)
      <==> Clean(a) || Take(b) == Taken([], [])
  {
    hide Observe, U32LE;
    TakeInTwoParts(a, b);
    if !Clean(a) {
      UncleanDropsAll(a);
      assert [] + b == b;
      var first := Take(a);
      assert first.messages + [] == first.messages;
      if Take(b).messages != [] { assert |first.messages + Take(b).messages| > |first.messages|; }
    }
  }

  /** An input: a length of zero, and behind it the frame of nil. In one chunk nothing is observed, in two chunks nil
      is. */
  lemma BadLengthHidesTheNextFrame()
    ensures var bad, frame: seq<byte> := [0, 0, 0, 0], [1, 0, 0, 0, 0xc0];
      PushAll([bad + frame]).messages == [] && PushAll([bad, frame]).messages == [Nil]
  {
    hide Take, DecodeWhole;
    var bad, frame: seq<byte> := [0, 0, 0, 0], [1, 0, 0, 0, 0xc0];
    PushOne(bad + frame);
    PushOne(bad);
    PushTwo(bad, frame);
    assert U32LE(bad + frame, 0) == 0 && U32LE(bad, 0) == 0;
    TakeFrame(bad + frame);
    TakeFrame(bad);
    assert [] + frame == frame;
    assert U32LE(frame, 0) == 1 && frame[4..5] == [0xc0] && frame[5..] == [];
    TakeFrame(frame);
    TakeIncomplete([]);
    NilDecodes();
  }

  lemma NilDecodes()
    ensures Observe([0xc0]) == [Nil]
  {}

  lemma PushOne(chunk: seq<byte>)
    ensures PushAll([chunk]) == Take(chunk)
  {
    hide Take;
    assert [chunk][..0] == [] && [] + chunk == chunk;
    assert PushAll([]) == Taken([], []);
    assert [] + Take(chunk).messages == Take(chunk).messages;
  }

  lemma PushTwo(a: seq<byte>, b: seq<byte>)
    ensures var last := Take(PushAll([a]).pending + b);
      PushAll([a, b]) == Taken(last.pending, PushAll([a]).messages + last.messages)
  {
    hide Take;
    assert [a, b][..1] == [a];
  }

  lemma {:induction false} UncleanDropsAll(a: seq<byte>)
    requires !Clean(a)
    ensures Take(a).pending == []
    decreases |a|
  {
    var n := U32LE(a, 0);
    if GoodLength(n) { UncleanDropsAll(a[n + 4..]); }
  }

  lemma {:induction false} CleanPrefix(a: seq<byte>, b: seq<byte>)
    requires Clean(a + b)
    ensures Clean(a)
    decreases |a|
  {
    if |a| >= 4 {
      LengthField(a, b);
      var n := U32LE(a, 0);
      if |a| >= n + 4 {
        assert (a + b)[n + 4..] == a[n + 4..] + b;
        CleanPrefix(a[n + 4..], b);
      }
    }
  }

  /** Pushing chunks one after the other into a fresh reader. */
  function PushAll(chunks: seq<seq<byte>>): (t: Taken)
    decreases |chunks|
  {
    if chunks == [] then Taken([], []) else
      var before := PushAll(chunks[..|chunks| - 1]);
      var last := Take(before.pending + chunks[|chunks| - 1]);
      Taken(last.pending, before.messages + last.messages)
  }

  method PushChunks(chunks: seq<seq<byte>>) returns (pending: seq<byte>, messages: seq<Value>)
    ensures Taken(pending, messages) == PushAll(chunks)
  {
    hide Take;
    var reader := new FrameReader();
    messages := [];
    var i := 0;
    while i < |chunks|
      invariant 0 <= i <= |chunks| && Incomplete(reader.pending)
      invariant Taken(reader.pending, messages) == PushAll(chunks[..i])
    {
      assert chunks[..i + 1][..i] == chunks[..i];
      var more := reader.Push(chunks[i]);
      messages := messages + more;
      i := i + 1;
    }
    assert chunks[..i] == chunks;
    pending := reader.pending;
  }

  lemma {:induction false} ChunksDoNotMatter(chunks: seq<seq<byte>>)
    requires Clean(Flatten(chunks))
    ensures PushAll(chunks) == Take(Flatten(chunks))
    decreases |chunks|
  {
    hide Take, Clean;
    if chunks == [] {
      TakeIncomplete([]);
    } else {
      var front, last := chunks[..|chunks| - 1], chunks[|chunks| - 1];
      assert chunks == front + [last];
      FlattenSnoc(front, last);
      CleanPrefix(Flatten(front), last);
      ChunksDoNotMatter(front);
      TakeInTwoParts(Flatten(front), last);
    }
  }

  // ---------------------------------------------------------------------------
  // Streams of frames
  // ---------------------------------------------------------------------------

  ghost predicate GoodBodies(bodies: seq<seq<byte>>) { forall b :: b in bodies ==> GoodLength(|b|) }

  function Frames(bodies: seq<seq<byte>>): (b: seq<byte>)
    requires GoodBodies(bodies)
  {
    if bodies == [] then [] else
      assert bodies[0] in bodies;
      Frame(bodies[0]) + Frames(bodies[1..])
  }

  function ObserveAll(bodies: seq<seq<byte>>): (messages: seq<Value>)
  {
    if bodies == [] then [] else Observe(bodies[0]) + ObserveAll(bodies[1..])
  }

  lemma {:induction false} FramesAreClean(bodies: seq<seq<byte>>)
    requires GoodBodies(bodies)
    ensures Clean(Frames(bodies)) && Take(Frames(bodies)) == Taken([], ObserveAll(bodies))
    decreases |bodies|
  {
    hide Observe, LE32, Frame;
    if bodies != [] {
      assert bodies[0] in bodies;
      var body, rest := bodies[0], Frames(bodies[1..]);
      FramesAreClean(bodies[1..]);
      FrameInFront(body, rest);
    }
  }

  lemma FrameInFront(body: seq<byte>, rest: seq<byte>)
    requires GoodLength(|body|)
    ensures var b := Frame(body) + rest;
      && |b| >= |body| + 4 && U32LE(b, 0) == |body| && b[|body| + 4..] == rest && b[4..|body| + 4] == body
  {
    hide LE32;
    var b := Frame(body) + rest;
    LengthField(LE32(|body|), body + rest);
    assert b == LE32(|body|) + (body + rest);
  }

  /** A concatenation of frames with bodies of 1 byte to 1 MiB, cut into any chunks: the decodable messages come
      out, in order, and nothing is held back. */
  lemma ReaderEmitsTheMessages(bodies: seq<seq<byte>>, chunks: seq<seq<byte>>)
    requires GoodBodies(bodies) && Flatten(chunks) == Frames(bodies)
    ensures PushAll(chunks) == Taken([], ObserveAll(bodies))
  {
    FramesAreClean(bodies);
    ChunksDoNotMatter(chunks);
  }

  /** While such a concatenation is arriving, what is held is a proper prefix of one frame. */
  lemma ReaderHoldsPartOfOneFrame(bodies: seq<seq<byte>>, chunks: seq<seq<byte>>, rest: seq<byte>)
    requires GoodBodies(bodies) && Flatten(chunks) + rest == Frames(bodies)
    ensures Incomplete(PushAll(chunks).pending)
    ensures PushAll(chunks).messages <= ObserveAll(bodies)
  {
    hide Take, Clean;
    FramesAreClean(bodies);
    CleanPrefix(Flatten(chunks), rest);
    ChunksDoNotMatter(chunks);
    TakeLeavesIncomplete(Flatten(chunks));
    TakeInTwoParts(Flatten(chunks), rest);
  }

  datatype Message = Message(kind: int, payload: Value)

  function ValueOf(m: Message): (v: Value) { Arr([Int(m.kind), m.payload]) }

  predicate Sendable(m: Message)
  {
    Encode(ValueOf(m)).Ok? && |Encode(ValueOf(m)).value| <= MAX_BODY
  }

  function Sent(messages: seq<Message>): (values: seq<Value>)
  {
    seq(|messages|, i requires 0 <= i < |messages| => ValueOf(messages[i]))
  }

  lemma MakeFrameRoundTrip(m: Message)
    requires Sendable(m)
    ensures var body := Encode(ValueOf(m)).value;
      && GoodLength(|body|) && MakeFrame(m.kind, m.payload) == Ok(Frame(body))
      && Observe(body) == [ValueOf(m)]
  {
    hide DecodeWhole;
    EncodeAccepts(ValueOf(m));
    WholeRoundTrip(ValueOf(m));
  }

  lemma LengthsAllowed(n: nat)
    ensures GoodLength(n) <==> n > 0 && n <= 1_048_576
  {}

  /** The bytes of a frame: the length of the rest, least significant byte first, then an array of two, the type and the
      payload. */
  lemma FrameBytes(kind: int, payload: Value)
    requires MakeFrame(kind, payload).Ok?
    ensures EncodeInt(kind).Ok? && Encode(payload).Ok?
    ensures var b := MakeFrame(kind, payload).value;
      && |b| >= 5
      && b[0] as int + 0x100 * b[1] as int + 0x1_0000 * b[2] as int + 0x100_0000 * b[3] as int == |b| - 4
      && b[4] == 0x92 && b[5..] == EncodeInt(kind).value + Encode(payload).value
  {
    hide EncodeInt, LE32, Encode, MakeFrame, Frame;
    EncodedPair(kind, payload);
    MadeFrame(kind, payload);
    var body, b := Encode(Arr([Int(kind), payload])).value, MakeFrame(kind, payload).value;
    var length := LE32(|body|);
    assert U32LE(length, 0) == |body|;
    assert b[0] == length[0] && b[1] == length[1] && b[2] == length[2] && b[3] == length[3];
    assert b[4] == body[0] && b[5..] == body[1..];
  }

  lemma MadeFrame(kind: int, payload: Value)
    requires MakeFrame(kind, payload).Ok?
    ensures var r := Encode(Arr([Int(kind), payload]));
      r.Ok? && |r.value| < 0x1_0000_0000 && MakeFrame(kind, payload).value == LE32(|r.value|) + r.value
  {
    hide Encode;
  }

  lemma EncodedPair(kind: int, payload: Value)
    ensures var r := Encode(Arr([Int(kind), payload]));
      if EncodeInt(kind).Ok? && Encode(payload).Ok? then
        r.Ok? && |r.value| >= 1 && r.value[0] == 0x92 && r.value[1..] == EncodeInt(kind).value + Encode(payload).value
      else r.Throws?
  {
    hide EncodeInt;
    assert [Int(kind), payload][1..] == [payload];
    assert Encode(Int(kind)) == EncodeInt(kind);
    assert EncodeAll([]) == Ok([]);
    assert EncodeAll([payload]) == if Encode(payload).Ok? then Ok(Encode(payload).value + []) else Throws by {
      assert [payload][1..] == [];
    }
  }

  ghost predicate AllSendable(messages: seq<Message>) { forall m :: m in messages ==> Sendable(m) }

  function BodiesOf(messages: seq<Message>): (bodies: seq<seq<byte>>)
    requires AllSendable(messages)
  {
    if messages == [] then [] else
      var m := messages[0];
      assert m in messages;
      [Encode(ValueOf(m)).value] + BodiesOf(messages[1..])
  }

  /** The frames of several messages written one after the other. */
  function Concatenated(messages: seq<Message>): (r: Result<seq<byte>>)
  {
    if messages == [] then Ok([]) else
      var first :- MakeFrame(messages[0].kind, messages[0].payload);
      var rest :- Concatenated(messages[1..]);
      Ok(first + rest)
  }

  lemma {:induction false} ConcatenatedFrames(messages: seq<Message>)
    requires AllSendable(messages)
    ensures GoodBodies(BodiesOf(messages)) && Concatenated(messages) == Ok(Frames(BodiesOf(messages)))
    ensures ObserveAll(BodiesOf(messages)) == Sent(messages)
    decreases |messages|
  {
    hide Encode, Observe, Frame, MakeFrame, Sendable;
    if messages != [] {
      var m := messages[0];
      assert m in messages;
      MakeFrameRoundTrip(m);
      ConcatenatedFrames(messages[1..]);
      var bodies := BodiesOf(messages);
      assert bodies[1..] == BodiesOf(messages[1..]);
      assert Sent(messages) == [ValueOf(m)] + Sent(messages[1..]);
    }
  }

  /** What makeMessagePackFrame writes, the reader gives back: every message, in order, for every chunking. */
  lemma MessagesRoundTrip(messages: seq<Message>, chunks: seq<seq<byte>>)
    requires AllSendable(messages) && Concatenated(messages) == Ok(Flatten(chunks))
    ensures PushAll(chunks) == Taken([], Sent(messages))
  {
    ConcatenatedFrames(messages);
    ReaderEmitsTheMessages(BodiesOf(messages), chunks);
  }
}
