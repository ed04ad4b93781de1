/** Browser transmission: the TS2 session learned from Altitude, and the transmissions of the connected browsers. */
module WebTx {
  import opened Options
  import opened Bytes
  import opened VoiceProxy

  type Packet = seq<byte>
  type Browser = nat

  const CLASS_SESSION := 0xBEF0
  const CLASS_ACK := 0xBEF1
  const CLASS_TXVOICE := 0xBEF2
  const CLASS_CONTROL := 0xBEF4
  const SUBTYPE_VOICE := 0x0C00
  const TS2_PAYLOAD := 309
  const SPEEX_LIMIT := 308
  const QUEUE_LIMIT := 24
  const DERIVED_INITIAL_SEQ: word := 0xffff_ffff

  /** A flow on one of the local endpoints: the source writes it address/flow. */
  datatype ScopedKey = ScopedKey(address: string, flow: FlowKey)

  datatype TxSession = TxSession(clientKey: ScopedKey, serverSock: Socket, header: seq<byte>, seqNo: word)

  /** One transmission; `id` is the identity of the source's txState object. */
  datatype Tx = Tx(id: nat, com: nat, monitorOnly: bool, queue: seq<Packet>, timer: bool)

  datatype Lamp = Lamp(com: nat, on: bool)

  /** A datagram on its way to the server: who sent it, which of the encoder's packets it carries, and where it went. */
  datatype Sent = Sent(tx: nat, nth: nat, epoch: nat, attempt: nat, header: seq<byte>, seqNo: word, socket: Socket,
                       target: Target, bytes: seq<byte>)

  // ---------------------------------------------------------------------------
  // Packets
  // ---------------------------------------------------------------------------

  /** The eight session bytes of a packet. */
  function SessionBytes(packet: seq<byte>): (b: seq<byte>)
    requires |packet| >= 12
  {
    packet[4..12]
  }

  predicate AllZero(b: seq<byte>) { forall i :: 0 <= i < |b| ==> b[i] == 0 }

  predicate IsSetup(packet: seq<byte>)
    requires |packet| >= 4
  {
    var cls, subtype := U16LE(packet, 0), U16LE(packet, 2);
    || (cls == CLASS_SESSION && subtype == 5)
    || (cls == CLASS_ACK && subtype == 0)
    || (cls == CLASS_CONTROL && subtype == 1)
  }

  function DerivedHeader(bytes: seq<byte>): (h: seq<byte>)
    requires |bytes| == 8
    ensures |h| == 12 && h[4..12] == bytes
    ensures U16LE(h, 0) == 0xBEF2 && U16LE(h, 2) == 0x0C00
    ensures h[..4] == [0xf2, 0xbe, 0x00, 0x0c]
  {
    LE16(CLASS_TXVOICE) + LE16(SUBTYPE_VOICE) + bytes
  }

  predicate SameSession(a: TxSession, b: TxSession) { a.clientKey == b.clientKey && a.header == b.header }

  /** The session after a packet: a native voice packet always reseeds, a setup packet only when the flow or the header
      is new, anything else changes nothing. */
  function Learned(current: Option<TxSession>, packet: seq<byte>, key: ScopedKey,
                   socket: Socket): (next: Option<TxSession>)
  {
    if |packet| < 16 then current
    else if U16LE(packet, 0) == CLASS_TXVOICE then
      Some(TxSession(key, socket, packet[..12], U32LE(packet, 12)))
    else if !IsSetup(packet) || AllZero(SessionBytes(packet)) then current
    else
      var derived := TxSession(key, socket, DerivedHeader(SessionBytes(packet)), DERIVED_INITIAL_SEQ);
      if current.Some? && SameSession(current.value, derived) then current else Some(derived)
  }

  /** A setup packet of a session that is already known leaves the sequence number alone exactly when flow and header
      are those of the known session; otherwise the next datagram has number 0 again. */
  lemma SetupRewindsExactly(s: TxSession, packet: seq<byte>, key: ScopedKey, socket: Socket)
    requires |packet| >= 16 && U16LE(packet, 0) != CLASS_TXVOICE && IsSetup(packet) && !AllZero(SessionBytes(packet))
    ensures var next := Learned(Some(s), packet, key, socket);
      && next.Some?
      && (s.clientKey == key && s.header == DerivedHeader(SessionBytes(packet)) ==> next == Some(s))
      && (s.clientKey != key || s.header != DerivedHeader(SessionBytes(packet)) ==>
            next.value.seqNo == DERIVED_INITIAL_SEQ && Plus(next.value.seqNo, 1) == 0)
  {
    hide U16LE;
  }

  lemma PlusOne(seed: word)
    ensures Plus(seed, 1) == (seed + 1) % 0x1_0000_0000
  {}

  function Plus(seed: word, n: nat): (r: word) { (seed + n) % 0x1_0000_0000 }

  function Normalized(speex: Packet): (p: Packet)
    ensures |p| == (if |speex| <= 308 then |speex| else 308) && p <= speex
  {
    if |speex| <= SPEEX_LIMIT then speex else speex[..SPEEX_LIMIT]
  }

  /** The datagram of one Speex packet: header, sequence number, the codec byte, the packet, and 0xff up to the fixed
      size in fixed mode. */
  function VoiceDatagram(header: seq<byte>, seqNo: word, speex: Packet, fixedSize: bool): (d: seq<byte>)
    requires |header| == 12 && |speex| <= SPEEX_LIMIT
    ensures |d| == 16 + if fixedSize then TS2_PAYLOAD else 1 + |speex|
    ensures d[..12] == header && U32LE(d, 12) == seqNo && d[16] == 5 && d[17..17 + |speex|] == speex
    ensures forall i :: 17 + |speex| <= i < |d| ==> d[i] == 0xff
  {
    var pad := if fixedSize then seq(SPEEX_LIMIT - |speex|, _ => 0xff) else [];
    var d := header + LE32(seqNo) + [5] + speex + pad;
    assert d[12..16] == LE32(seqNo) && d[17..17 + |speex|] == speex;
    d
  }

  // ---------------------------------------------------------------------------
  // What holds between events
  // ---------------------------------------------------------------------------

  function MonitorsOnly(live: map<Browser, Tx>): (r: map<Browser, Tx>)
  {
    map ws | ws in live && live[ws].monitorOnly :: live[ws]
  }

  /** Readiness calls alternate, beginning with ready. */
  ghost predicate Alternating(readiness: seq<bool>, ready: bool)
  {
    && (forall i :: 0 <= i < |readiness| ==> readiness[i] == (i % 2 == 0))
    && ready == (|readiness| % 2 == 1)
  }

  function Switches(lamps: seq<Lamp>, lamp: Lamp): (n: nat)
  {
    if lamps == [] then 0 else
      Switches(lamps[..|lamps| - 1], lamp) + if lamps[|lamps| - 1] == lamp then 1 else 0
  }

  function Transmitting(live: map<Browser, Tx>, com: nat): (r: set<Browser>)
  {
    set ws | ws in live && !live[ws].monitorOnly && live[ws].com == com
  }

  /** A lamp was switched on as often more than off as there are transmissions on its radio. */
  ghost predicate LampsBalanced(lamps: seq<Lamp>, live: map<Browser, Tx>)
  {
    forall com: nat :: Switches(lamps, Lamp(com, true)) == Switches(lamps, Lamp(com, false)) + |Transmitting(live, com)|
  }

  /** A network transmission exists only while there is a session. */
  ghost predicate Backed(live: map<Browser, Tx>, session: Option<TxSession>)
  {
    && (session.Some? ==> |session.value.header| == 12)
    && (session.None? ==> forall ws :: ws in live ==> live[ws].monitorOnly)
  }

  /** Bounded queues, a timer exactly while something is queued, nothing queued for a monitor, distinct identities. */
  ghost predicate Paced(live: map<Browser, Tx>, nextTx: nat)
  {
    && (forall ws :: ws in live ==>
      var tx := live[ws];
      && tx.id < nextTx && tx.com in {1, 2} && |tx.queue| <= QUEUE_LIMIT && (tx.timer <==> tx.queue != [])
      && (tx.monitorOnly ==> tx.queue == []) && (forall p :: p in tx.queue ==> |p| <= SPEEX_LIMIT))
    && (forall v, w :: v in live && w in live && v != w ==> live[v].id != live[w].id)
  }

  /** A queue is the tail of what the encoder produced. */
  ghost predicate Queued(live: map<Browser, Tx>, encoded: map<nat, seq<Packet>>)
  {
    forall ws :: ws in live ==>
      var tx := live[ws];
      tx.id in encoded && |tx.queue| <= |encoded[tx.id]| && tx.queue == encoded[tx.id][|encoded[tx.id]| - |tx.queue|..]
  }

  /** What a transmission has sent is a subsequence of what its encoder produced, in order and without repetition, and
      comes before everything that is still queued. */
  ghost predicate InOrder(wire: seq<Sent>, live: map<Browser, Tx>, encoded: map<nat, seq<Packet>>, fixedSize: bool)
  {
    && (forall i :: 0 <= i < |wire| ==>
      var d := wire[i];
      && d.tx in encoded && d.nth < |encoded[d.tx]| && |encoded[d.tx][d.nth]| <= SPEEX_LIMIT && |d.header| == 12
      && d.bytes == VoiceDatagram(d.header, d.seqNo, encoded[d.tx][d.nth], fixedSize))
    && (forall i, j :: 0 <= i < j < |wire| && wire[i].tx == wire[j].tx ==> wire[i].nth < wire[j].nth)
    && (forall i, ws :: 0 <= i < |wire| && ws in live && live[ws].id == wire[i].tx ==>
      !live[ws].monitorOnly && wire[i].nth + |live[ws].queue| < |encoded[wire[i].tx]|)
  }

  /** One transmission, one header: the one of the session while it is live. */
  ghost predicate OneHeader(wire: seq<Sent>, live: map<Browser, Tx>, session: Option<TxSession>)
  {
    && (forall i, j :: 0 <= i < j < |wire| && wire[i].tx == wire[j].tx ==> wire[i].header == wire[j].header)
    && (forall i, ws :: 0 <= i < |wire| && ws in live && live[ws].id == wire[i].tx ==>
      session.Some? && wire[i].header == session.value.header)
  }

  /** Nothing is sent by a transmission after it stopped; every earlier transmission is live or has stopped. */
  ghost predicate Silent(wire: seq<Sent>, live: map<Browser, Tx>, stopped: map<nat, nat>, nextTx: nat)
  {
    && (forall i :: 0 <= i < |wire| ==> wire[i].tx < nextTx)
    && (forall t :: t in stopped ==> t < nextTx && stopped[t] <= |wire|)
    && (forall i, t :: t in stopped && stopped[t] <= i < |wire| ==> wire[i].tx != t)
    && (forall ws :: ws in live ==> live[ws].id !in stopped)
    && (forall t: nat :: t < nextTx ==> t in stopped || IsLive(live, t))
  }

  predicate IsLive(live: map<Browser, Tx>, id: nat)
  {
    exists ws :: ws in live && live[ws].id == id
  }

  /** The sequence number counts the datagrams since the last seed; in one epoch each attempt is used once, in order. */
  ghost predicate Numbered(wire: seq<Sent>, session: Option<TxSession>, seeds: seq<word>, attempts: nat)
  {
    && (session.Some? ==> seeds != [] && session.value.seqNo == Plus(seeds[|seeds| - 1], attempts))
    && (forall i :: 0 <= i < |wire| ==>
      && wire[i].epoch < |seeds| && wire[i].attempt > 0 && wire[i].seqNo == Plus(seeds[wire[i].epoch], wire[i].attempt)
      && (wire[i].epoch == |seeds| - 1 ==> wire[i].attempt <= attempts))
    && (forall i, j :: 0 <= i < j < |wire| && wire[i].epoch == wire[j].epoch ==> wire[i].attempt < wire[j].attempt)
  }

  // ---------------------------------------------------------------------------
  // What single changes keep
  // ---------------------------------------------------------------------------

  lemma SwitchesSnoc(lamps: seq<Lamp>, last: Lamp, lamp: Lamp)
    ensures Switches(lamps + [last], lamp) == Switches(lamps, lamp) + if last == lamp then 1 else 0
  {
    assert (lamps + [last])[..|lamps|] == lamps;
  }

  function LampCalls(tx: Tx, on: bool): (calls: seq<Lamp>)
  {
    if tx.monitorOnly then [] else [Lamp(tx.com, on)]
  }

  function OffCall(live: map<Browser, Tx>, ws: Browser): (calls: seq<Lamp>)
  {
    if ws in live then LampCalls(live[ws], false) else []
  }

  function CountedOn(tx: Tx, com: nat): (n: nat) { if !tx.monitorOnly && tx.com == com then 1 else 0 }

  lemma SwitchesAfterCall(lamps: seq<Lamp>, tx: Tx, on: bool, lamp: Lamp)
    ensures Switches(lamps + LampCalls(tx, on), lamp)
         == Switches(lamps, lamp) + if lamp.on == on then CountedOn(tx, lamp.com) else 0
  {
    SwitchesSnoc(lamps, Lamp(tx.com, on), lamp);
    assert lamps + [] == lamps;
  }

  lemma TransmittingWith(live: map<Browser, Tx>, ws: Browser, tx: Tx, com: nat)
    requires ws !in live
    ensures |Transmitting(live[ws := tx], com)| == |Transmitting(live, com)| + CountedOn(tx, com)
  {
    assert Transmitting(live[ws := tx], com) == Transmitting(live, com) + if CountedOn(tx, com) == 1 then {ws} else {};
  }

  lemma LampsAfterStop(lamps: seq<Lamp>, live: map<Browser, Tx>, ws: Browser)
    requires ws in live && LampsBalanced(lamps, live)
    ensures LampsBalanced(lamps + LampCalls(live[ws], false), live - {ws})
  {
    hide Switches, Transmitting, CountedOn, LampCalls;
    var tx := live[ws];
    forall com ensures var l := lamps + LampCalls(tx, false);
      Switches(l, Lamp(com, true)) == Switches(l, Lamp(com, false)) + |Transmitting(live - {ws}, com)|
    {
      SwitchesAfterCall(lamps, tx, false, Lamp(com, true));
      SwitchesAfterCall(lamps, tx, false, Lamp(com, false));
      TransmittingWith(live - {ws}, ws, tx, com);
      assert (live - {ws})[ws := tx] == live;
    }
  }

  lemma LampsAfterStart(lamps: seq<Lamp>, live: map<Browser, Tx>, ws: Browser, tx: Tx)
    requires ws !in live && LampsBalanced(lamps, live)
    ensures LampsBalanced(lamps + LampCalls(tx, true), live[ws := tx])
  {
    hide Switches, Transmitting, CountedOn, LampCalls;
    forall com ensures var l := lamps + LampCalls(tx, true);
      Switches(l, Lamp(com, true)) == Switches(l, Lamp(com, false)) + |Transmitting(live[ws := tx], com)|
    {
      SwitchesAfterCall(lamps, tx, true, Lamp(com, true));
      SwitchesAfterCall(lamps, tx, true, Lamp(com, false));
      TransmittingWith(live, ws, tx, com);
    }
  }

  lemma LampsAfterChange(lamps: seq<Lamp>, live: map<Browser, Tx>, ws: Browser, tx: Tx)
    requires ws in live && LampsBalanced(lamps, live) && tx.com == live[ws].com
    requires tx.monitorOnly == live[ws].monitorOnly
    ensures LampsBalanced(lamps, live[ws := tx])
  {
    forall com
      ensures Switches(lamps, Lamp(com, true))
           == Switches(lamps, Lamp(com, false)) + |Transmitting(live[ws := tx], com)|
    {
      assert Transmitting(live[ws := tx], com) == Transmitting(live, com);
    }
  }

  ghost predicate AllRunning(live: map<Browser, Tx>, nextTx: nat, lamps: seq<Lamp>, wire: seq<Sent>,
                             encoded: map<nat, seq<Packet>>, stopped: map<nat, nat>, fixedSize: bool)
  {
    && LampsBalanced(lamps, live) && Paced(live, nextTx) && Queued(live, encoded)
    && InOrder(wire, live, encoded, fixedSize) && Silent(wire, live, stopped, nextTx)
    && (forall t: nat :: t in encoded <==> t < nextTx)
  }

  lemma NothingRunning(live: map<Browser, Tx>, encoded: map<nat, seq<Packet>>, stopped: map<nat, nat>, fixedSize: bool)
    requires live == map[] && encoded == map[] && stopped == map[]
    ensures AllRunning(live, 0, [], [], encoded, stopped, fixedSize)
  {
    hide VoiceDatagram, Transmitting;
    forall com: nat ensures |Transmitting(live, com)| == 0 { NobodyTransmits(live, com); }
  }

  lemma NothingSent(live: map<Browser, Tx>)
    requires live == map[]
    ensures Numbered([], None, [], 0) && OneHeader([], live, None) && Backed(live, None)
  {}

  lemma NobodyTransmits(live: map<Browser, Tx>, com: nat)
    requires live == map[]
    ensures Transmitting(live, com) == {}
  {}

  lemma StopKeeps(live: map<Browser, Tx>, nextTx: nat, lamps: seq<Lamp>, wire: seq<Sent>,
                  encoded: map<nat, seq<Packet>>, stopped: map<nat, nat>, fixedSize: bool, ws: Browser)
    requires ws in live && AllRunning(live, nextTx, lamps, wire, encoded, stopped, fixedSize)
    ensures AllRunning(live - {ws}, nextTx, lamps + LampCalls(live[ws], false), wire, encoded,
                       stopped[live[ws].id := |wire|], fixedSize)
  {
    hide LampsBalanced, Paced, Queued, InOrder, Silent, VoiceDatagram;
    LampsAfterStop(lamps, live, ws);
    PacedAfterStop(live, nextTx, ws);
    QueuedAfterStop(live, encoded, ws);
    InOrderAfterStop(wire, live, encoded, fixedSize, ws);
    SilentAfterStop(wire, live, stopped, nextTx, ws);
  }

  lemma PacedAfterStop(live: map<Browser, Tx>, nextTx: nat, ws: Browser)
    requires Paced(live, nextTx)
    ensures Paced(live - {ws}, nextTx)
  {}

  lemma QueuedAfterStop(live: map<Browser, Tx>, encoded: map<nat, seq<Packet>>, ws: Browser)
    requires Queued(live, encoded)
    ensures Queued(live - {ws}, encoded)
  {}

  lemma InOrderAfterStop(wire: seq<Sent>, live: map<Browser, Tx>, encoded: map<nat, seq<Packet>>, fixedSize: bool,
                         ws: Browser)
    requires InOrder(wire, live, encoded, fixedSize)
    ensures InOrder(wire, live - {ws}, encoded, fixedSize)
  {
    hide VoiceDatagram;
  }

  lemma SilentAfterStop(wire: seq<Sent>, live: map<Browser, Tx>, stopped: map<nat, nat>, nextTx: nat, ws: Browser)
    requires ws in live && Silent(wire, live, stopped, nextTx) && Paced(live, nextTx)
    ensures Silent(wire, live - {ws}, stopped[live[ws].id := |wire|], nextTx)
  {
    forall t: nat | t < nextTx && t !in stopped && t != live[ws].id
      ensures IsLive(live - {ws}, t)
    {
      var v :| v in live && live[v].id == t;
      assert v in live - {ws} && (live - {ws})[v].id == t;
    }
  }

  /** A new transmission: a fresh identity, an empty queue, no timer. */
  lemma StartKeeps(live: map<Browser, Tx>, nextTx: nat, lamps: seq<Lamp>, wire: seq<Sent>,
                   encoded: map<nat, seq<Packet>>, stopped: map<nat, nat>, fixedSize: bool, ws: Browser, tx: Tx)
    requires ws !in live && AllRunning(live, nextTx, lamps, wire, encoded, stopped, fixedSize)
    requires tx.id == nextTx && tx.com in {1, 2} && tx.queue == [] && !tx.timer
    ensures AllRunning(live[ws := tx], nextTx + 1, lamps + LampCalls(tx, true), wire, encoded[nextTx := []], stopped,
                       fixedSize)
  {
    hide LampsBalanced, Paced, Queued, InOrder, Silent, VoiceDatagram;
    LampsAfterStart(lamps, live, ws, tx);
    PacedAfterStart(live, nextTx, ws, tx);
    QueuedAfterStart(live, encoded, ws, tx);
    InOrderAfterStart(wire, live, encoded, fixedSize, ws, tx);
    SilentAfterStart(wire, live, stopped, nextTx, ws, tx);
  }

  lemma PacedAfterStart(live: map<Browser, Tx>, nextTx: nat, ws: Browser, tx: Tx)
    requires Paced(live, nextTx) && ws !in live && tx.id == nextTx && tx.com in {1, 2} && tx.queue == [] && !tx.timer
    ensures Paced(live[ws := tx], nextTx + 1)
  {}

  lemma QueuedAfterStart(live: map<Browser, Tx>, encoded: map<nat, seq<Packet>>, ws: Browser, tx: Tx)
    requires Queued(live, encoded) && ws !in live && tx.id !in encoded && tx.queue == []
    ensures Queued(live[ws := tx], encoded[tx.id := []])
  {}

  lemma InOrderAfterStart(wire: seq<Sent>, live: map<Browser, Tx>, encoded: map<nat, seq<Packet>>, fixedSize: bool,
                          ws: Browser, tx: Tx)
    requires InOrder(wire, live, encoded, fixedSize) && ws !in live && tx.id !in encoded
    ensures InOrder(wire, live[ws := tx], encoded[tx.id := []], fixedSize)
  {
    hide VoiceDatagram;
  }

  lemma SilentAfterStart(wire: seq<Sent>, live: map<Browser, Tx>, stopped: map<nat, nat>, nextTx: nat, ws: Browser,
                         tx: Tx)
    requires Silent(wire, live, stopped, nextTx) && ws !in live && tx.id == nextTx
    ensures Silent(wire, live[ws := tx], stopped, nextTx + 1)
  {
    StillLive(live, ws, tx);
    assert ws in live[ws := tx] && live[ws := tx][ws].id == nextTx;
  }

  lemma StillLive(live: map<Browser, Tx>, ws: Browser, tx: Tx)
    requires ws in live ==> live[ws].id == tx.id
    ensures forall t: nat :: IsLive(live, t) ==> IsLive(live[ws := tx], t)
  {
    var next := live[ws := tx];
    forall t: nat | IsLive(live, t)
      ensures IsLive(next, t)
    {
      var v :| v in live && live[v].id == t;
      assert v in next && next[v].id == t;
    }
  }

  // What a queue keeps: the newest packets.
  function Newest(queue: seq<Packet>): (q: seq<Packet>)
    ensures |q| == if |queue| <= 24 then |queue| else 24
    ensures forall i :: 0 <= i < |q| ==> q[i] == queue[|queue| - |q| + i]
  {
    if |queue| > QUEUE_LIMIT then queue[|queue| - QUEUE_LIMIT..] else queue
  }

  // The queue after a push: the oldest packets give way.
  function Pushed(queue: seq<Packet>, p: Packet): (q: seq<Packet>)
  {
    Newest(queue + [p])
  }

  lemma PushedIsNewest(queue: seq<Packet>, more: seq<Packet>, p: Packet)
    ensures Pushed(Newest(queue + more), p) == Newest(queue + (more + [p]))
  {
    assert queue + (more + [p]) == queue + more + [p];
  }

  lemma PushKeeps(live: map<Browser, Tx>, nextTx: nat, lamps: seq<Lamp>, wire: seq<Sent>,
                  encoded: map<nat, seq<Packet>>, stopped: map<nat, nat>, fixedSize: bool, ws: Browser, p: Packet)
    requires ws in live && !live[ws].monitorOnly && |p| <= SPEEX_LIMIT
    requires AllRunning(live, nextTx, lamps, wire, encoded, stopped, fixedSize)
    ensures live[ws].id in encoded
    ensures var tx := live[ws].(queue := Pushed(live[ws].queue, p), timer := true);
      AllRunning(live[ws := tx], nextTx, lamps, wire, encoded[tx.id := encoded[tx.id] + [p]], stopped, fixedSize)
  {
    hide LampsBalanced, InOrder, Silent, VoiceDatagram, Pushed, Queued;
    var tx := live[ws].(queue := Pushed(live[ws].queue, p), timer := true);
    var more := encoded[tx.id := encoded[tx.id] + [p]];
    LampsAfterChange(lamps, live, ws, tx);
    PushKeepsQueues(live, nextTx, encoded, ws, p);
    InOrderAfterPush(wire, live, encoded, fixedSize, ws, tx, p);
    SilentAfterChange(wire, live, stopped, nextTx, ws, tx);
  }

  lemma PushKeepsQueues(live: map<Browser, Tx>, nextTx: nat, encoded: map<nat, seq<Packet>>, ws: Browser, p: Packet)
    requires ws in live && !live[ws].monitorOnly && |p| <= SPEEX_LIMIT && Paced(live, nextTx) && Queued(live, encoded)
    ensures live[ws].id in encoded && |Pushed(live[ws].queue, p)| <= |live[ws].queue| + 1
    ensures var tx := live[ws].(queue := Pushed(live[ws].queue, p), timer := true);
      Paced(live[ws := tx], nextTx) && Queued(live[ws := tx], encoded[tx.id := encoded[tx.id] + [p]])
  {
    hide Pushed, Queued;
    OwnQueue(live, encoded, ws);
    var tx := live[ws].(queue := Pushed(live[ws].queue, p), timer := true);
    PushedIsTail(live[ws].queue, encoded[tx.id], p);
    PacedAfterChange(live, nextTx, ws, tx);
    QueuedAfterPush(live, encoded, ws, tx, encoded[tx.id] + [p]);
  }

  lemma OwnQueue(live: map<Browser, Tx>, encoded: map<nat, seq<Packet>>, ws: Browser)
    requires Queued(live, encoded) && ws in live
    ensures var tx := live[ws];
      tx.id in encoded && |tx.queue| <= |encoded[tx.id]| && tx.queue == encoded[tx.id][|encoded[tx.id]| - |tx.queue|..]
  {}

  lemma QueuedAfterPush(live: map<Browser, Tx>, encoded: map<nat, seq<Packet>>, ws: Browser, tx: Tx, made: seq<Packet>)
    requires Queued(live, encoded) && ws in live && forall v :: v in live && v != ws ==> live[v].id != tx.id
    requires |tx.queue| <= |made| && tx.queue == made[|made| - |tx.queue|..]
    ensures Queued(live[ws := tx], encoded[tx.id := made])
  {}

  lemma PushedIsTail(queue: seq<Packet>, made: seq<Packet>, p: Packet)
    requires |queue| <= |made| && queue == made[|made| - |queue|..] && |queue| <= QUEUE_LIMIT
    ensures var q, all := Pushed(queue, p), made + [p];
      0 < |q| <= |all| && |q| <= QUEUE_LIMIT && q == all[|all| - |q|..] && |q| <= |queue| + 1
    ensures forall x :: x in Pushed(queue, p) ==> x in queue || x == p
  {
    assert queue + [p] == (made + [p])[|made| - |queue|..];
  }

  lemma PacedAfterChange(live: map<Browser, Tx>, nextTx: nat, ws: Browser, tx: Tx)
    requires Paced(live, nextTx) && ws in live && tx.id == live[ws].id && tx.com == live[ws].com
    requires |tx.queue| <= QUEUE_LIMIT && (tx.timer <==> tx.queue != []) && (tx.monitorOnly ==> tx.queue == [])
    requires forall p :: p in tx.queue ==> |p| <= SPEEX_LIMIT
    ensures Paced(live[ws := tx], nextTx)
  {}

  lemma InOrderAfterPush(wire: seq<Sent>, live: map<Browser, Tx>, encoded: map<nat, seq<Packet>>, fixedSize: bool,
                         ws: Browser, tx: Tx, p: Packet)
    requires InOrder(wire, live, encoded, fixedSize) && ws in live && tx.id == live[ws].id && tx.id in encoded
    requires tx.monitorOnly == live[ws].monitorOnly && |tx.queue| <= |live[ws].queue| + 1
    requires forall v :: v in live && v != ws ==> live[v].id != tx.id
    ensures InOrder(wire, live[ws := tx], encoded[tx.id := encoded[tx.id] + [p]], fixedSize)
  {
    hide VoiceDatagram;
  }

  lemma SilentAfterChange(wire: seq<Sent>, live: map<Browser, Tx>, stopped: map<nat, nat>, nextTx: nat, ws: Browser,
                          tx: Tx)
    requires Silent(wire, live, stopped, nextTx) && ws in live && tx.id == live[ws].id
    ensures Silent(wire, live[ws := tx], stopped, nextTx)
  {
    StillLive(live, ws, tx);
  }

  function Dequeued(tx: Tx): (r: Tx)
    requires tx.queue != []
  {
    tx.(queue := tx.queue[1..], timer := |tx.queue| > 1)
  }

  lemma DequeueKeeps(live: map<Browser, Tx>, nextTx: nat, lamps: seq<Lamp>, wire: seq<Sent>,
                     encoded: map<nat, seq<Packet>>, stopped: map<nat, nat>, fixedSize: bool, ws: Browser)
    requires ws in live && live[ws].queue != [] && AllRunning(live, nextTx, lamps, wire, encoded, stopped, fixedSize)
    ensures AllRunning(live[ws := Dequeued(live[ws])], nextTx, lamps, wire, encoded, stopped, fixedSize)
    ensures var tx := live[ws];
      && tx.id in encoded && !tx.monitorOnly && |tx.queue| <= |encoded[tx.id]| && |tx.queue[0]| <= SPEEX_LIMIT
      && tx.queue[0] == encoded[tx.id][|encoded[tx.id]| - |tx.queue|]
      && (forall i :: 0 <= i < |wire| && wire[i].tx == tx.id ==> wire[i].nth < |encoded[tx.id]| - |tx.queue|)
  {
    hide LampsBalanced, Silent, VoiceDatagram;
    var tx := Dequeued(live[ws]);
    LampsAfterChange(lamps, live, ws, tx);
    assert live[ws].queue[0] in live[ws].queue;
    PacedAfterChange(live, nextTx, ws, tx);
    QueuedAfterDequeue(live, encoded, ws);
    InOrderAfterDequeue(wire, live, encoded, fixedSize, ws);
    SilentAfterChange(wire, live, stopped, nextTx, ws, tx);
  }

  lemma QueuedAfterDequeue(live: map<Browser, Tx>, encoded: map<nat, seq<Packet>>, ws: Browser)
    requires Queued(live, encoded) && ws in live && live[ws].queue != []
    ensures Queued(live[ws := Dequeued(live[ws])], encoded)
  {
    var q, e := live[ws].queue, encoded[live[ws].id];
    assert q[1..] == e[|e| - |q| + 1..];
  }

  lemma InOrderAfterDequeue(wire: seq<Sent>, live: map<Browser, Tx>, encoded: map<nat, seq<Packet>>, fixedSize: bool,
                            ws: Browser)
    requires InOrder(wire, live, encoded, fixedSize) && ws in live && live[ws].queue != []
    ensures InOrder(wire, live[ws := Dequeued(live[ws])], encoded, fixedSize)
  {
    hide VoiceDatagram;
  }

  /** Sending the packet that was just taken from the queue. */
  lemma SendKeeps(live: map<Browser, Tx>, nextTx: nat, lamps: seq<Lamp>, wire: seq<Sent>,
                  encoded: map<nat, seq<Packet>>, stopped: map<nat, nat>, fixedSize: bool, ws: Browser, d: Sent)
    requires ws in live && !live[ws].monitorOnly && d.tx == live[ws].id
    requires AllRunning(live, nextTx, lamps, wire, encoded, stopped, fixedSize)
    requires d.tx in encoded && d.nth + |live[ws].queue| + 1 == |encoded[d.tx]|
    requires |d.header| == 12 && |encoded[d.tx][d.nth]| <= SPEEX_LIMIT
    requires d.bytes == VoiceDatagram(d.header, d.seqNo, encoded[d.tx][d.nth], fixedSize)
    requires forall i :: 0 <= i < |wire| && wire[i].tx == d.tx ==> wire[i].nth < d.nth
    ensures AllRunning(live, nextTx, lamps, wire + [d], encoded, stopped, fixedSize)
  {
    hide LampsBalanced, Queued, VoiceDatagram;
    InOrderAfterSend(wire, live, encoded, fixedSize, ws, d);
    SilentAfterSend(wire, live, stopped, nextTx, ws, d);
  }

  lemma InOrderAfterSend(wire: seq<Sent>, live: map<Browser, Tx>, encoded: map<nat, seq<Packet>>, fixedSize: bool,
                         ws: Browser, d: Sent)
    requires InOrder(wire, live, encoded, fixedSize) && ws in live && d.tx == live[ws].id && !live[ws].monitorOnly
    requires forall v :: v in live && v != ws ==> live[v].id != d.tx
    requires d.tx in encoded && d.nth + |live[ws].queue| + 1 == |encoded[d.tx]|
    requires |d.header| == 12 && |encoded[d.tx][d.nth]| <= SPEEX_LIMIT
    requires d.bytes == VoiceDatagram(d.header, d.seqNo, encoded[d.tx][d.nth], fixedSize)
    requires forall i :: 0 <= i < |wire| && wire[i].tx == d.tx ==> wire[i].nth < d.nth
    ensures InOrder(wire + [d], live, encoded, fixedSize)
  {
    hide VoiceDatagram;
    var w := wire + [d];
    assert forall i :: 0 <= i < |w| ==> w[i] == if i < |wire| then wire[i] else d;
  }

  lemma SilentAfterSend(wire: seq<Sent>, live: map<Browser, Tx>, stopped: map<nat, nat>, nextTx: nat, ws: Browser,
                        d: Sent)
    requires Silent(wire, live, stopped, nextTx) && Paced(live, nextTx) && ws in live && d.tx == live[ws].id
    ensures Silent(wire + [d], live, stopped, nextTx)
  {}

  lemma HeaderAfterSend(wire: seq<Sent>, live: map<Browser, Tx>, session: Option<TxSession>, ws: Browser, d: Sent,
                        seqNo: word)
    requires OneHeader(wire, live, session) && ws in live && d.tx == live[ws].id
    requires session.Some? && d.header == session.value.header
    ensures OneHeader(wire + [d], live, Some(session.value.(seqNo := seqNo)))
  {}

  /** One attempt to send: the number advances whether or not the datagram leaves. */
  lemma NumberedAfterAttempt(wire: seq<Sent>, session: TxSession, seeds: seq<word>, attempts: nat)
    requires Numbered(wire, Some(session), seeds, attempts)
    ensures Numbered(wire, Some(session.(seqNo := Plus(session.seqNo, 1))), seeds, attempts + 1)
    ensures forall i :: 0 <= i < |wire| && wire[i].epoch == |seeds| - 1 ==> wire[i].attempt < attempts + 1
  {}

  lemma NumberedAfterSend(wire: seq<Sent>, session: Option<TxSession>, seeds: seq<word>, attempts: nat, d: Sent)
    requires Numbered(wire, session, seeds, attempts) && seeds != [] && attempts > 0
    requires forall i :: 0 <= i < |wire| && wire[i].epoch == |seeds| - 1 ==> wire[i].attempt < attempts
    requires d.epoch == |seeds| - 1 && d.attempt == attempts && d.seqNo == Plus(seeds[|seeds| - 1], attempts)
    ensures Numbered(wire + [d], session, seeds, attempts)
  {
    hide Plus;
  }

  lemma NumberedAfterSeed(wire: seq<Sent>, session: Option<TxSession>, seeds: seq<word>, attempts: nat, next: TxSession)
    requires Numbered(wire, session, seeds, attempts)
    ensures Numbered(wire, Some(next), seeds + [next.seqNo], 0)
  {}

  /** The transmissions that survive a session: all of them if it is the one they belong to, else only the monitors. */
  function Survivors(live: map<Browser, Tx>, session: Option<TxSession>, next: TxSession): (r: map<Browser, Tx>)
  {
    if session.Some? && !SameSession(session.value, next) then MonitorsOnly(live) else live
  }

  lemma SurvivorsKeepHeader(wire: seq<Sent>, live: map<Browser, Tx>, session: Option<TxSession>, next: TxSession)
    requires OneHeader(wire, live, session) && Backed(live, session)
    requires forall i, ws :: 0 <= i < |wire| && ws in live && live[ws].id == wire[i].tx ==> !live[ws].monitorOnly
    ensures OneHeader(wire, Survivors(live, session, next), Some(next))
  {}

  lemma MonitorsSentNothing(live: map<Browser, Tx>, nextTx: nat, lamps: seq<Lamp>, wire: seq<Sent>,
                            encoded: map<nat, seq<Packet>>, stopped: map<nat, nat>, fixedSize: bool)
    requires AllRunning(live, nextTx, lamps, wire, encoded, stopped, fixedSize)
    ensures forall i, ws :: 0 <= i < |wire| && ws in live && live[ws].id == wire[i].tx ==> !live[ws].monitorOnly
  {
    hide LampsBalanced, Paced, Queued, Silent, VoiceDatagram;
  }

  lemma HeadersWithoutSession(wire: seq<Sent>, live: map<Browser, Tx>, session: Option<TxSession>)
    requires OneHeader(wire, live, session)
    requires forall i, ws :: 0 <= i < |wire| && ws in live && live[ws].id == wire[i].tx ==> !live[ws].monitorOnly
    ensures OneHeader(wire, MonitorsOnly(live), None)
  {}

  lemma NumberedWithoutSession(wire: seq<Sent>, session: Option<TxSession>, seeds: seq<word>, attempts: nat)
    requires Numbered(wire, session, seeds, attempts)
    ensures Numbered(wire, None, seeds, attempts)
  {}

  // A fresh transmission has sent nothing yet.
  lemma HeaderAfterStart(wire: seq<Sent>, before: map<Browser, Tx>, live: map<Browser, Tx>,
                         session: Option<TxSession>, ws: Browser, tx: Tx, lamps: seq<Lamp>,
                         encoded: map<nat, seq<Packet>>, stopped: map<nat, nat>, fixedSize: bool)
    requires OneHeader(wire, before, session) && live == before - {ws}
    requires AllRunning(live, tx.id, lamps, wire, encoded, stopped, fixedSize)
    ensures OneHeader(wire, live[ws := tx], session)
  {
    hide LampsBalanced, Paced, Queued, InOrder;
  }

  lemma PacedOf(live: map<Browser, Tx>, nextTx: nat, lamps: seq<Lamp>, wire: seq<Sent>, encoded: map<nat, seq<Packet>>,
                stopped: map<nat, nat>, fixedSize: bool, ws: Browser)
    requires ws in live && AllRunning(live, nextTx, lamps, wire, encoded, stopped, fixedSize)
    ensures var tx := live[ws];
      && tx.id in encoded && |tx.queue| <= |encoded[tx.id]| && (tx.timer <==> tx.queue != [])
      && (tx.monitorOnly ==> tx.queue == []) && |tx.queue| <= QUEUE_LIMIT
  {
    hide LampsBalanced, InOrder, Silent;
  }

  lemma HeaderAfterChange(wire: seq<Sent>, live: map<Browser, Tx>, session: Option<TxSession>, ws: Browser, tx: Tx)
    requires OneHeader(wire, live, session) && ws in live && tx.id == live[ws].id
    ensures OneHeader(wire, live[ws := tx], session)
  {}

  lemma HeadersAfterAttempt(wire: seq<Sent>, live: map<Browser, Tx>, session: TxSession, seqNo: word)
    requires OneHeader(wire, live, Some(session))
    ensures OneHeader(wire, live, Some(session.(seqNo := seqNo)))
  {}

  lemma NumberedNow(wire: seq<Sent>, session: Option<TxSession>, seeds: seq<word>, attempts: nat)
    requires Numbered(wire, session, seeds, attempts) && session.Some?
    ensures seeds != [] && session.value.seqNo == Plus(seeds[|seeds| - 1], attempts)
  {}

  /** A datagram, field by field: the session's header, the number, the codec byte, at most 308 bytes of the packet,
      and in fixed mode 0xff up to 325 bytes. */
  ghost predicate Carries(bytes: seq<byte>, header: seq<byte>, seqNo: nat, packet: Packet, fixedSize: bool)
  {
    var n := if |packet| <= 308 then |packet| else 308;
    && |bytes| == (if fixedSize then 325 else 17 + n)
    && bytes[..12] == header && U32LE(bytes, 12) == seqNo && bytes[16] == 5
    && bytes[17..17 + n] == packet[..n]
    && (forall i :: 17 + n <= i < |bytes| ==> bytes[i] == 0xff)
  }

  /** If a datagram more is on the wire, it carries the oldest packet of the browser's queue with the next number. */
  ghost predicate CarriesOldest(wire: seq<Sent>, wire': seq<Sent>, live: map<Browser, Tx>, ws: Browser,
                                session: Option<TxSession>, fixedSize: bool)
  {
    wire' != wire ==>
      && session.Some? && ws in live && live[ws].queue != [] && wire' != []
      && Carries(wire'[|wire'| - 1].bytes, session.value.header, (session.value.seqNo + 1) % 0x1_0000_0000,
                 live[ws].queue[0], fixedSize)
  }

  lemma DatagramCarries(header: seq<byte>, seqNo: word, packet: Packet, fixedSize: bool)
    requires |header| == 12
    ensures Carries(VoiceDatagram(header, seqNo, Normalized(packet), fixedSize), header, seqNo, packet, fixedSize)
  {}

  /** What a pacing timer does: nothing for a transmission that is not the browser's own or has an empty queue; else
      it takes the oldest packet, uses the next sequence number, and sends unless the socket refuses. */
  ghost predicate Fired(live: map<Browser, Tx>, session: Option<TxSession>, wire: seq<Sent>, ws: Browser, id: nat,
                        target: Target, threw: bool, live': map<Browser, Tx>, session': Option<TxSession>,
                        wire': seq<Sent>)
  {
    if ws !in live || live[ws].id != id || live[ws].queue == [] then
      live' == live && session' == session && wire' == wire
    else
      && session.Some? && !live[ws].monitorOnly && live' == live[ws := Dequeued(live[ws])]
      && session' == Some(session.value.(seqNo := Plus(session.value.seqNo, 1)))
      && (threw ==> wire' == wire)
      && (!threw ==>
        && wire' != [] && wire' == wire + [wire'[|wire'| - 1]]
        && var d := wire'[|wire'| - 1];
          && d.tx == id && d.header == session.value.header && d.seqNo == session'.value.seqNo
          && d.socket == session.value.serverSock && d.target == target)
  }

  // ---------------------------------------------------------------------------
  // Histories
  // ---------------------------------------------------------------------------

  /** The packet reseeds the sequence number: every native one does, a setup packet when flow or header is new. */
  predicate Reseeds(current: Option<TxSession>, packet: seq<byte>, key: ScopedKey)
  {
    && |packet| >= 16
    && (U16LE(packet, 0) == CLASS_TXVOICE
        || (&& IsSetup(packet) && !AllZero(SessionBytes(packet))
            && !(&& current.Some? && current.value.clientKey == key
                 && current.value.header == DerivedHeader(SessionBytes(packet)))))
  }

  /** The packets that set a session up, by class and subtype. */
  lemma SetupClasses(packet: seq<byte>)
    requires |packet| >= 4
    ensures IsSetup(packet) <==>
      || (U16LE(packet, 0) == 0xBEF0 && U16LE(packet, 2) == 5)
      || (U16LE(packet, 0) == 0xBEF1 && U16LE(packet, 2) == 0)
      || (U16LE(packet, 0) == 0xBEF4 && U16LE(packet, 2) == 1)
  {
    hide U16LE;
  }

  /** With whatever session before, exactly these packets reseed: native voice, and a setup packet with session bytes
      that are not all zero, unless flow and header are known already. */
  lemma ReseedingPackets(current: Option<TxSession>, packet: seq<byte>, key: ScopedKey)
    requires |packet| >= 16
    ensures Reseeds(current, packet, key) <==>
      || U16LE(packet, 0) == 0xBEF2
      || (&& IsSetup(packet) && (exists i :: 4 <= i < 12 && packet[i] != 0)
          && !(&& current.Some? && current.value.clientKey == key && |current.value.header| == 12
               && U16LE(current.value.header, 0) == 0xBEF2 && U16LE(current.value.header, 2) == 0x0C00
               && current.value.header[4..12] == packet[4..12]))
  {
    hide IsSetup;
    var bytes := SessionBytes(packet);
    assert AllZero(bytes) <==> forall i :: 4 <= i < 12 ==> packet[i] == 0 by {
      assert forall i :: 4 <= i < 12 ==> bytes[i - 4] == packet[i];
      assert forall i :: 0 <= i < 8 ==> bytes[i] == packet[i + 4];
    }
    if current.Some? && |current.value.header| == 12 { SameHeader(current.value.header, bytes); }
  }

  lemma SameHeader(h: seq<byte>, bytes: seq<byte>)
    requires |h| == 12 && |bytes| == 8
    ensures h == DerivedHeader(bytes) <==> U16LE(h, 0) == 0xBEF2 && U16LE(h, 2) == 0x0C00 && h[4..12] == bytes
  {
    var d := DerivedHeader(bytes);
    if U16LE(h, 0) == 0xBEF2 && U16LE(h, 2) == 0x0C00 && h[4..12] == bytes {
      SameU16(h, d, 0);
      SameU16(h, d, 2);
      assert h == h[..4] + h[4..12] && d == d[..4] + d[4..12];
    }
  }

  lemma SameU16(a: seq<byte>, b: seq<byte>, at: nat)
    requires at + 2 <= |a| && at + 2 <= |b| && U16LE(a, at) == U16LE(b, at)
    ensures a[at] == b[at] && a[at + 1] == b[at + 1]
  {}

  lemma LearnedByReseeding(current: Option<TxSession>, packet: seq<byte>, key: ScopedKey, socket: Socket)
    ensures var next := Learned(current, packet, key, socket);
      if Reseeds(current, packet, key) then
        && next.Some? && next.value.clientKey == key && next.value.serverSock == socket
        && |next.value.header| == 12 && next.value.header[4..12] == packet[4..12]
        && (if U16LE(packet, 0) == 0xBEF2 then
              next.value.header == packet[..12] && next.value.seqNo == U32LE(packet, 12)
            else
              && U16LE(next.value.header, 0) == 0xBEF2 && U16LE(next.value.header, 2) == 0x0C00
              && Plus(next.value.seqNo, 1) == 0)
      else next == current
  {
    hide U16LE;
  }

  function Gone(before: map<Browser, Tx>, left: map<Browser, Tx>): set<nat>
  {
    set ws | ws in before && ws !in left :: before[ws].id
  }

  /** When transmissions have stopped: those that are gone stop now. */
  function Halted(stopped: map<nat, nat>, before: map<Browser, Tx>, left: map<Browser, Tx>, at: nat): map<nat, nat>
  {
    stopped + map id | id in Gone(before, left) :: at
  }

  lemma HaltedOneMore(stopped: map<nat, nat>, before: map<Browser, Tx>, left: map<Browser, Tx>, at: nat, ws: Browser)
    requires ws in left && ws in before && left[ws] == before[ws]
    ensures Halted(stopped, before, left, at)[left[ws].id := at] == Halted(stopped, before, left - {ws}, at)
  {
    hide Gone;
    GoneOneMore(before, left, ws);
  }

  lemma GoneOneMore(before: map<Browser, Tx>, left: map<Browser, Tx>, ws: Browser)
    requires ws in before
    ensures Gone(before, left - {ws}) == Gone(before, left) + {before[ws].id}
  {}

  lemma HaltedNobody(stopped: map<nat, nat>, live: map<Browser, Tx>, at: nat)
    ensures Halted(stopped, live, live, at) == stopped
  {
    assert Gone(live, live) == {};
  }

  lemma HaltedOne(stopped: map<nat, nat>, live: map<Browser, Tx>, ws: Browser, at: nat)
    requires ws in live
    ensures Halted(stopped, live, live - {ws}, at) == stopped[live[ws].id := at]
  {
    HaltedNobody(stopped, live, at);
    HaltedOneMore(stopped, live, live, at, ws);
  }

  /** What a packet does to seeds, attempts and readiness. */
  ghost predicate Taught(packet: seq<byte>, key: ScopedKey, before: Option<TxSession>, seeds: seq<word>,
                         attempts: nat, readiness: seq<bool>, after: Option<TxSession>, seeds': seq<word>,
                         attempts': nat, readiness': seq<bool>)
  {
    && (if Reseeds(before, packet, key)
        then after.Some? && seeds' == seeds + [after.value.seqNo] && attempts' == 0
        else after == before && seeds' == seeds && attempts' == attempts)
    && readiness' == readiness + if before.None? && after.Some? then [true] else []
  }

  /** Everything that only grows. */
  datatype Past = Past(readiness: seq<bool>, lamps: seq<Lamp>, wire: seq<Sent>, stopped: map<nat, nat>,
                       seeds: seq<word>, attempts: nat, nextTx: nat)

  /** What came after a: nothing is taken back, who has stopped stays stopped, and later datagrams belong to later
      attempts or to later seeds. */
  ghost predicate Extends(a: Past, b: Past)
  {
    && a.readiness <= b.readiness && a.lamps <= b.lamps && a.wire <= b.wire && a.seeds <= b.seeds
    && a.nextTx <= b.nextTx
    && (forall t :: t in a.stopped ==> t in b.stopped && b.stopped[t] == a.stopped[t])
    && (|a.seeds| == |b.seeds| ==> a.attempts <= b.attempts)
    && (forall i :: |a.wire| <= i < |b.wire| ==>
      && |a.seeds| - 1 <= b.wire[i].epoch
      && (b.wire[i].epoch == |a.seeds| - 1 ==> a.attempts < b.wire[i].attempt))
  }

  // At most one datagram more, the attempt made now with the last seed.
  ghost predicate SentOne(wire: seq<Sent>, attempts: nat, wire': seq<Sent>, seeds: nat, attempts': nat)
  {
    && attempts <= attempts'
    && (wire' == wire
        || (&& wire' != [] && wire' == wire + [wire'[|wire'| - 1]]
            && wire'[|wire'| - 1].epoch + 1 == seeds && attempts < wire'[|wire'| - 1].attempt == attempts'))
  }

  lemma SentExtends(a: Past, b: Past)
    requires b == a.(wire := b.wire, attempts := b.attempts)
    requires SentOne(a.wire, a.attempts, b.wire, |b.seeds|, b.attempts)
    ensures Extends(a, b)
  {}

  lemma ExtendsItself(a: Past)
    ensures Extends(a, a)
  {}

  lemma PrefixOfSum<T>(a: seq<T>, b: seq<T>, c: seq<T>)
    ensures a <= a + b + c
  {}

  // What a change that sends nothing has to show.
  lemma QuietExtends(a: Past, b: Past, before: map<Browser, Tx>, left: map<Browser, Tx>, at: nat)
    requires a.readiness <= b.readiness && a.lamps <= b.lamps && a.wire == b.wire && a.nextTx <= b.nextTx
    requires a.seeds <= b.seeds && (|a.seeds| == |b.seeds| ==> a.attempts <= b.attempts)
    requires b.stopped == Halted(a.stopped, before, left, at)
    requires forall ws :: ws in before ==> before[ws].id !in a.stopped
    ensures Extends(a, b)
  {}

  lemma ExtendsOnward(a: Past, b: Past, c: Past)
    requires Extends(a, b) && Extends(b, c)
    ensures Extends(a, c)
  {
    forall i | |a.wire| <= i < |c.wire|
      ensures |a.seeds| - 1 <= c.wire[i].epoch
      ensures c.wire[i].epoch == |a.seeds| - 1 ==> a.attempts < c.wire[i].attempt
    {
      if i < |b.wire| { assert c.wire[i] == b.wire[i]; }
    }
  }

  /** Only switched off. */
  ghost predicate OnlyOff(before: seq<Lamp>, after: seq<Lamp>)
  {
    before <= after && forall i :: |before| <= i < |after| ==> !after[i].on
  }

  datatype Event =
    | Heard(packet: seq<byte>, key: ScopedKey, socket: Socket)
    | Invalidated(flow: Option<ScopedKey>)
    | Pressed(ws: Browser, com: int, monitorOnly: bool)
    | Released(ws: Browser)
    | Encoded(ws: Browser, id: nat, packets: seq<Packet>)
    | Exited(ws: Browser, id: nat)
    | Due(ws: Browser, id: nat, target: Target, threw: bool)

  // ---------------------------------------------------------------------------
  // The module
  // ---------------------------------------------------------------------------

  class WebTx {
    const enabled: bool
    const fixedSize: bool
    var activeTxSession: Option<TxSession>
    var webTxBySocket: map<Browser, Tx>
    var nextTx: nat

    // What the rest of the program sees: readiness callbacks, lamp calls and datagrams.
    var readiness: seq<bool>
    var lamps: seq<Lamp>
    var wire: seq<Sent>

    // History: what each encoder produced, when transmissions stopped, the seeds and the attempts since the last one.
    var encoded: map<nat, seq<Packet>>
    ghost var stopped: map<nat, nat>
    var seeds: seq<word>
    var attempts: nat

    ghost function History(): Past
      reads `readiness, `lamps, `wire, `stopped, `seeds, `attempts, `nextTx
    {
      Past(readiness, lamps, wire, stopped, seeds, attempts, nextTx)
    }

    /** What holds for the transmissions, whatever becomes of the session. */
    ghost predicate Running()
      reads `webTxBySocket, `nextTx, `lamps, `wire, `encoded, `stopped
    {
      AllRunning(webTxBySocket, nextTx, lamps, wire, encoded, stopped, fixedSize)
    }

    ghost predicate Seeded()
      reads `activeTxSession, `wire, `seeds, `attempts, `readiness
    {
      Alternating(readiness, activeTxSession.Some?) && Numbered(wire, activeTxSession, seeds, attempts)
    }

    ghost predicate Valid()
      reads this
    {
      Running() && Seeded() && Backed(webTxBySocket, activeTxSession) && OneHeader(wire, webTxBySocket, activeTxSession)
    }

    constructor (enabled: bool, fixedSize: bool)
      ensures Valid() && activeTxSession == None && webTxBySocket == map[] && wire == [] && readiness == []
      ensures lamps == []
      ensures this.enabled == enabled && this.fixedSize == fixedSize
    {
      hide AllRunning, Numbered, OneHeader, Backed;
      NothingSent(map[]);
      NothingRunning(map[], map[], map[], fixedSize);
      this.enabled, this.fixedSize := enabled, fixedSize;
      activeTxSession, webTxBySocket, nextTx := None, map[], 0;
      readiness, lamps, wire := [], [], [];
      encoded, stopped, attempts, seeds := map[], map[], 0, [];
    }

    lemma FreshIdentity()
      requires Valid()
      ensures forall i :: 0 <= i < |wire| ==> wire[i].tx < nextTx
    {
      hide LampsBalanced, Paced, Queued, InOrder;
    }

    lemma IsBacked()
      requires Valid()
      ensures Backed(webTxBySocket, activeTxSession)
    {}

    method Stop(ws: Browser)
      requires Running()
      modifies `webTxBySocket, `lamps, `stopped
      ensures Running() && webTxBySocket == old(webTxBySocket) - {ws}
      ensures lamps == old(lamps) + OffCall(old(webTxBySocket), ws)
      ensures stopped == Halted(old(stopped), old(webTxBySocket), webTxBySocket, |wire|)
    {
      hide AllRunning, Halted;
      assert lamps + [] == lamps;
      if ws !in webTxBySocket {
        assert webTxBySocket == webTxBySocket - {ws};
        HaltedNobody(stopped, webTxBySocket, |wire|);
        return;
      }
      var tx := webTxBySocket[ws];
      StopKeeps(webTxBySocket, nextTx, lamps, wire, encoded, stopped, fixedSize, ws);
      HaltedOne(stopped, webTxBySocket, ws, |wire|);
      webTxBySocket := webTxBySocket - {ws};
      if !tx.monitorOnly { lamps := lamps + [Lamp(tx.com, false)]; }
      stopped := stopped[tx.id := |wire|];
    }

    /** Stops every network transmission; local monitors go on. */
    method StopTransmissions()
      requires Running()
      modifies `webTxBySocket, `lamps, `stopped
      ensures Running() && webTxBySocket == MonitorsOnly(old(webTxBySocket))
      ensures stopped == Halted(old(stopped), old(webTxBySocket), webTxBySocket, |wire|)
      ensures OnlyOff(old(lamps), lamps)
    {
      hide AllRunning, Halted;
      HaltedNobody(stopped, webTxBySocket, |wire|);
      var rest := webTxBySocket.Keys;
      while rest != {}
        invariant Running() && rest <= webTxBySocket.Keys <= old(webTxBySocket).Keys
        invariant forall ws :: ws in old(webTxBySocket) ==>
          (ws in webTxBySocket <==> ws in rest || old(webTxBySocket)[ws].monitorOnly)
        invariant forall ws :: ws in webTxBySocket ==> webTxBySocket[ws] == old(webTxBySocket)[ws]
        invariant stopped == Halted(old(stopped), old(webTxBySocket), webTxBySocket, |wire|)
        invariant OnlyOff(old(lamps), lamps)
        decreases rest
      {
        var ws :| ws in rest;
        rest := rest - {ws};
        if !webTxBySocket[ws].monitorOnly {
          HaltedOneMore(old(stopped), old(webTxBySocket), webTxBySocket, |wire|, ws);
          HaltedOne(stopped, webTxBySocket, ws, |wire|);
          Stop(ws);
        }
      }
    }

    method ReplaceTxSession(next: TxSession)
      requires Valid() && |next.header| == 12
      modifies this
      ensures Valid() && activeTxSession == Some(next)
      ensures webTxBySocket == Survivors(old(webTxBySocket), old(activeTxSession), next)
      ensures seeds == old(seeds) + [next.seqNo] && attempts == 0
      ensures readiness == old(readiness) + if old(activeTxSession.None?) then [true] else []
      ensures wire == old(wire) && encoded == old(encoded) && nextTx == old(nextTx)
      ensures stopped == Halted(old(stopped), old(webTxBySocket), webTxBySocket, |wire|) && OnlyOff(old(lamps), lamps)
      ensures Extends(old(History()), History())
    {
      hide AllRunning, Numbered, OneHeader, Halted, Extends;
      hide Gone;
      ghost var before, past := webTxBySocket, History();
      LiveOrStopped();
      HaltedNobody(stopped, webTxBySocket, |wire|);
      var previous := activeTxSession;
      if previous.Some? && (previous.value.clientKey != next.clientKey || previous.value.header != next.header) {
        StopTransmissions();
      }
      NumberedAfterSeed(wire, activeTxSession, seeds, attempts, next);
      MonitorsSentNothing(old(webTxBySocket), nextTx, old(lamps), wire, encoded, old(stopped), fixedSize);
      SurvivorsKeepHeader(wire, old(webTxBySocket), previous, next);
      activeTxSession := Some(next);
      seeds := seeds + [next.seqNo];
      attempts := 0;
      assert readiness + [] == readiness;
      if previous.None? { readiness := readiness + [true]; }
      QuietExtends(past, History(), before, webTxBySocket, |wire|);
    }

    /** A packet of the native client, passed on by the router. */
    method CacheTxSession(msg: seq<byte>, clientKey: ScopedKey, serverSock: Socket)
      requires Valid()
      modifies this
      ensures Valid() && activeTxSession == Learned(old(activeTxSession), msg, clientKey, serverSock)
      ensures webTxBySocket == if activeTxSession.None? then old(webTxBySocket)
        else Survivors(old(webTxBySocket), old(activeTxSession), activeTxSession.value)
      ensures wire == old(wire) && encoded == old(encoded) && nextTx == old(nextTx)
      ensures Taught(msg, clientKey, old(activeTxSession), old(seeds), old(attempts), old(readiness),
                     activeTxSession, seeds, attempts, readiness)
      ensures stopped == Halted(old(stopped), old(webTxBySocket), webTxBySocket, |wire|) && OnlyOff(old(lamps), lamps)
      ensures Extends(old(History()), History())
    {
      hide AllRunning, Numbered, OneHeader, Alternating, MonitorsOnly, U16LE, Halted, Extends;
      ExtendsItself(History());
      LearnedByReseeding(activeTxSession, msg, clientKey, serverSock);
      HaltedNobody(stopped, webTxBySocket, |wire|);
      assert readiness + [] == readiness;
      if |msg| < 16 { return; }
      if U16LE(msg, 0) != CLASS_TXVOICE {
        DeriveTxSessionFromSetup(msg, clientKey, serverSock);
        return;
      }
      ReplaceTxSession(TxSession(clientKey, serverSock, msg[..12], U32LE(msg, 12)));
    }

    method DeriveTxSessionFromSetup(msg: seq<byte>, clientKey: ScopedKey, serverSock: Socket)
      requires Valid() && |msg| >= 16 && U16LE(msg, 0) != CLASS_TXVOICE
      modifies this
      ensures Valid() && activeTxSession == Learned(old(activeTxSession), msg, clientKey, serverSock)
      ensures webTxBySocket == if activeTxSession.None? then old(webTxBySocket)
        else Survivors(old(webTxBySocket), old(activeTxSession), activeTxSession.value)
      ensures wire == old(wire) && encoded == old(encoded) && nextTx == old(nextTx)
      ensures Taught(msg, clientKey, old(activeTxSession), old(seeds), old(attempts), old(readiness),
                     activeTxSession, seeds, attempts, readiness)
      ensures stopped == Halted(old(stopped), old(webTxBySocket), webTxBySocket, |wire|) && OnlyOff(old(lamps), lamps)
      ensures Extends(old(History()), History())
    {
      hide AllRunning, Numbered, OneHeader, Alternating, MonitorsOnly, U16LE, Halted, Extends;
      ExtendsItself(History());
      HaltedNobody(stopped, webTxBySocket, |wire|);
      assert readiness + [] == readiness;
      if !IsSetup(msg) { return; }
      var sessionBytes := msg[4..12];
      if forall i :: 0 <= i < 8 ==> sessionBytes[i] == 0 { return; }
      var header := LE16(CLASS_TXVOICE) + LE16(SUBTYPE_VOICE) + sessionBytes;
      var current := activeTxSession;
      if current.Some? && current.value.clientKey == clientKey && current.value.header == header { return; }
      ReplaceTxSession(TxSession(clientKey, serverSock, header, DERIVED_INITIAL_SEQ));
    }

    /** The session ended: for one flow, or for all when no flow is named. */
    method InvalidateTxSession(clientKey: Option<ScopedKey>)
      requires Valid()
      modifies `activeTxSession, `webTxBySocket, `lamps, `stopped, `readiness
      ensures Valid()
      ensures stopped == Halted(old(stopped), old(webTxBySocket), webTxBySocket, |wire|) && OnlyOff(old(lamps), lamps)
      ensures var before := old(activeTxSession);
        var hit := clientKey.None? || (before.Some? && before.value.clientKey == clientKey.value);
        && activeTxSession == (if hit then None else old(activeTxSession))
        && webTxBySocket == (if hit then MonitorsOnly(old(webTxBySocket)) else old(webTxBySocket))
        && readiness == old(readiness) + if hit && old(activeTxSession.Some?) then [false] else []
      ensures Extends(old(History()), History())
    {
      hide AllRunning, Numbered, OneHeader, Halted, Extends;
      ghost var before, past := webTxBySocket, History();
      LiveOrStopped();
      ExtendsItself(History());
      HaltedNobody(stopped, webTxBySocket, |wire|);
      assert readiness + [] == readiness;
      if clientKey.Some? && (activeTxSession.None? || activeTxSession.value.clientKey != clientKey.value) { return; }
      var wasReady := activeTxSession.Some?;
      NumberedWithoutSession(wire, activeTxSession, seeds, attempts);
      MonitorsSentNothing(webTxBySocket, nextTx, lamps, wire, encoded, stopped, fixedSize);
      HeadersWithoutSession(wire, webTxBySocket, activeTxSession);
      activeTxSession := None;
      StopTransmissions();
      if wasReady { readiness := readiness + [false]; }
      QuietExtends(past, History(), before, webTxBySocket, |wire|);
    }

    /** A browser presses push-to-talk, or starts a local monitor. */
    method Start(ws: Browser, com: int, monitorOnly: bool) returns (started: bool)
      requires Valid()
      modifies `webTxBySocket, `lamps, `stopped, `nextTx, `encoded
      ensures Valid()
      ensures started == (enabled && (monitorOnly || activeTxSession.Some?))
      ensures !started ==> unchanged(this)
      ensures started ==>
        && webTxBySocket == old(webTxBySocket)[ws := Tx(old(nextTx), if com == 2 then 2 else 1, monitorOnly, [], false)]
        && nextTx == old(nextTx) + 1 && encoded == old(encoded)[old(nextTx) := []]
        && stopped == Halted(old(stopped), old(webTxBySocket), old(webTxBySocket) - {ws}, |wire|)
        && lamps == old(lamps) + OffCall(old(webTxBySocket), ws) + LampCalls(webTxBySocket[ws], true)
      ensures Extends(old(History()), History())
    {
      hide AllRunning, Numbered, OneHeader, Alternating, Backed, Halted, LampCalls, OffCall, Extends;
      ExtendsItself(History());
      if !enabled { return false; }
      if !monitorOnly && activeTxSession.None? { return false; }
      Begin(ws, if com == 2 then 2 else 1, monitorOnly);
      started := true;
    }

    method Begin(ws: Browser, com: nat, monitorOnly: bool)
      requires Valid() && com in {1, 2} && (monitorOnly || activeTxSession.Some?)
      modifies `webTxBySocket, `lamps, `stopped, `nextTx, `encoded
      ensures Valid() && nextTx == old(nextTx) + 1 && encoded == old(encoded)[old(nextTx) := []]
      ensures webTxBySocket == old(webTxBySocket)[ws := Tx(old(nextTx), com, monitorOnly, [], false)]
      ensures stopped == Halted(old(stopped), old(webTxBySocket), old(webTxBySocket) - {ws}, |wire|)
      ensures lamps == old(lamps) + OffCall(old(webTxBySocket), ws) + LampCalls(webTxBySocket[ws], true)
      ensures Extends(old(History()), History())
    {
      hide AllRunning, Numbered, OneHeader, Alternating, Halted, Extends;
      hide Gone;
      ghost var before, past := webTxBySocket, History();
      LiveOrStopped();
      Stop(ws);
      var tx := Tx(nextTx, com, monitorOnly, [], false);
      StartKeeps(webTxBySocket, nextTx, lamps, wire, encoded, stopped, fixedSize, ws, tx);
      HeaderAfterStart(wire, old(webTxBySocket), webTxBySocket, activeTxSession, ws, tx, lamps, encoded, stopped,
                       fixedSize);
      encoded := encoded[nextTx := []];
      nextTx := nextTx + 1;
      webTxBySocket := webTxBySocket[ws := tx];
      assert lamps + [] == lamps;
      if !monitorOnly { lamps := lamps + [Lamp(com, true)]; }
      assert webTxBySocket == old(webTxBySocket)[ws := tx];
      QuietExtends(past, History(), before, before - {ws}, |wire|);
    }

    /** The transmission that a callback of an encoder or of a timer belongs to is still the browser's own. */
    predicate Owns(ws: Browser, id: nat)
      reads `webTxBySocket
    {
      ws in webTxBySocket && webTxBySocket[ws].id == id
    }

    method QueuePacket(ws: Browser, packet: Packet)
      requires Valid() && ws in webTxBySocket && !webTxBySocket[ws].monitorOnly && |packet| <= SPEEX_LIMIT
      modifies `webTxBySocket, `encoded
      ensures Valid()
      ensures var tx := old(webTxBySocket)[ws];
        && webTxBySocket == old(webTxBySocket)[ws := tx.(queue := Pushed(tx.queue, packet), timer := true)]
        && tx.id in old(encoded) && encoded == old(encoded)[tx.id := old(encoded)[tx.id] + [packet]]
    {
      hide AllRunning, Numbered, Alternating;
      var tx := webTxBySocket[ws];
      PushKeeps(webTxBySocket, nextTx, lamps, wire, encoded, stopped, fixedSize, ws, packet);
      var queue := tx.queue + [packet];
      if |queue| > QUEUE_LIMIT { queue := queue[|queue| - QUEUE_LIMIT..]; }
      encoded := encoded[tx.id := encoded[tx.id] + [packet]];
      webTxBySocket := webTxBySocket[ws := tx.(queue := queue, timer := true)];
    }

    /** The packets of one chunk of encoder output. Output of an encoder that was replaced is ignored. */
    method EncoderOutput(ws: Browser, id: nat, packets: seq<Packet>)
      requires Valid()
      modifies `webTxBySocket, `encoded
      ensures Valid()
      ensures !old(Owns(ws, id)) || old(webTxBySocket)[ws].monitorOnly ==> unchanged(this)
      ensures old(Owns(ws, id)) && !old(webTxBySocket)[ws].monitorOnly ==>
        && Owns(ws, id) && !webTxBySocket[ws].monitorOnly && id in old(encoded)
        && encoded == old(encoded)[id := old(encoded)[id] + AllNormalized(packets)]
        && webTxBySocket == old(webTxBySocket)[ws := Refilled(old(webTxBySocket)[ws], packets)]
      ensures Extends(old(History()), History())
    {
      hide AllRunning, Numbered, Alternating, OneHeader, Backed, LampsBalanced, Pushed, Newest, Refilled, Extends;
      ExtendsItself(History());
      if !Owns(ws, id) || webTxBySocket[ws].monitorOnly { return; }
      var i := 0;
      PacedOf(webTxBySocket, nextTx, lamps, wire, encoded, stopped, fixedSize, ws);
      ghost var before := encoded;
      ghost var tx := webTxBySocket[ws];
      assert before[id] + AllNormalized(packets[..0]) == before[id];
      RefilledWithNothing(tx, packets[..0]);
      while i < |packets|
        invariant 0 <= i <= |packets| && Valid() && Owns(ws, id) && !webTxBySocket[ws].monitorOnly
        invariant encoded == before[id := before[id] + AllNormalized(packets[..i])]
        invariant webTxBySocket == old(webTxBySocket)[ws := Refilled(tx, packets[..i])]
      {
        RefilledMore(tx, packets, i);
        QueuePacket(ws, Normalized(packets[i]));
        assert AllNormalized(packets[..i + 1]) == AllNormalized(packets[..i]) + [Normalized(packets[i])];
        ConcatAssociates(before[id], AllNormalized(packets[..i]), [Normalized(packets[i])]);
        i := i + 1;
      }
      assert packets[..i] == packets;
    }

    /** An encoder ends: only the transmission that owns it stops. */
    method EncoderExit(ws: Browser, id: nat)
      requires Valid()
      modifies `webTxBySocket, `lamps, `stopped
      ensures Valid()
      ensures webTxBySocket == if old(Owns(ws, id)) then old(webTxBySocket) - {ws} else old(webTxBySocket)
      ensures stopped == Halted(old(stopped), old(webTxBySocket), webTxBySocket, |wire|)
      ensures lamps == old(lamps) + if old(Owns(ws, id)) then OffCall(old(webTxBySocket), ws) else []
      ensures Extends(old(History()), History())
    {
      hide AllRunning, Numbered, Alternating, OneHeader, Backed, Halted, OffCall, Extends;
      StopBrowser(ws, Owns(ws, id));
    }

    /** Push-to-talk is released. */
    method StopBrowser(ws: Browser, really: bool)
      requires Valid()
      modifies `webTxBySocket, `lamps, `stopped
      ensures Valid()
      ensures webTxBySocket == if really then old(webTxBySocket) - {ws} else old(webTxBySocket)
      ensures stopped == Halted(old(stopped), old(webTxBySocket), webTxBySocket, |wire|)
      ensures lamps == old(lamps) + if really then OffCall(old(webTxBySocket), ws) else []
      ensures Extends(old(History()), History())
    {
      hide AllRunning, Numbered, Alternating, Halted, OffCall, Extends;
      ghost var before, past := webTxBySocket, History();
      LiveOrStopped();
      ExtendsItself(History());
      HaltedNobody(stopped, webTxBySocket, |wire|);
      assert lamps + [] == lamps;
      if really {
        Stop(ws);
        QuietExtends(past, History(), before, webTxBySocket, |wire|);
      }
    }

    method SendPacket(ws: Browser, packet: Packet, nth: nat, target: Target, threw: bool)
      requires Valid() && ws in webTxBySocket && !webTxBySocket[ws].monitorOnly
      requires var tx := webTxBySocket[ws];
        && tx.id in encoded && nth + |tx.queue| + 1 == |encoded[tx.id]|
        && packet == encoded[tx.id][nth] && |packet| <= SPEEX_LIMIT
        && (forall i :: 0 <= i < |wire| && wire[i].tx == tx.id ==> wire[i].nth < nth)
      modifies `activeTxSession, `wire, `attempts
      ensures Valid() && old(activeTxSession).Some? && attempts == old(attempts) + 1
      ensures activeTxSession == Some(old(activeTxSession).value.(seqNo := Plus(old(activeTxSession).value.seqNo, 1)))
      ensures wire == old(wire) + if threw then [] else [SentNow(webTxBySocket[ws].id, nth, packet, target)]
      ensures !threw ==>
        Carries(wire[|wire| - 1].bytes, old(activeTxSession).value.header,
                (old(activeTxSession).value.seqNo + 1) % 0x1_0000_0000, packet, fixedSize)
    {
      hide AllRunning, Numbered, OneHeader, Alternating, VoiceDatagram, Plus;
      hide Carries;
      var session := activeTxSession.value;
      var normalized := Normalized(packet);
      DatagramCarries(session.header, Plus(session.seqNo, 1), packet, fixedSize);
      PlusOne(session.seqNo);
      NumberedAfterAttempt(wire, session, seeds, attempts);
      HeadersAfterAttempt(wire, webTxBySocket, session, Plus(session.seqNo, 1));
      activeTxSession := Some(session.(seqNo := Plus(session.seqNo, 1)));
      attempts := attempts + 1;
      assert wire + [] == wire;
      if threw { return; }
      var d := SentNow(webTxBySocket[ws].id, nth, normalized, target);
      SendKeeps(webTxBySocket, nextTx, lamps, wire, encoded, stopped, fixedSize, ws, d);
      HeaderAfterSend(wire, webTxBySocket, activeTxSession, ws, d, activeTxSession.value.seqNo);
      NumberedNow(wire, activeTxSession, seeds, attempts);
      NumberedAfterSend(wire, activeTxSession, seeds, attempts, d);
      wire := wire + [d];
    }

    /** The datagram that the current session sends now. */
    function SentNow(tx: nat, nth: nat, packet: Packet, target: Target): (d: Sent)
      requires activeTxSession.Some? && |activeTxSession.value.header| == 12 && |packet| <= SPEEX_LIMIT && seeds != []
      reads `activeTxSession, `attempts, `seeds
    {
      var s := activeTxSession.value;
      Sent(tx, nth, |seeds| - 1, attempts, s.header, s.seqNo, s.serverSock, target,
           VoiceDatagram(s.header, s.seqNo, packet, fixedSize))
    }

    /** The pacing timer of a transmission fires; `threw` says that the socket refused the datagram. */
    method TimerFired(ws: Browser, id: nat, target: Target, threw: bool)
      requires Valid()
      modifies `webTxBySocket, `activeTxSession, `wire, `attempts
      ensures Valid()
      ensures Fired(old(webTxBySocket), old(activeTxSession), old(wire), ws, id, target, threw,
                    webTxBySocket, activeTxSession, wire)
      ensures attempts == old(attempts) + if old(Owns(ws, id)) && old(webTxBySocket)[ws].queue != [] then 1 else 0
      ensures SentOne(old(wire), old(attempts), wire, |seeds|, attempts)
      ensures CarriesOldest(old(wire), wire, old(webTxBySocket), ws, old(activeTxSession), fixedSize)
      ensures Extends(old(History()), History())
    {
      hide AllRunning, Numbered, OneHeader, Alternating, VoiceDatagram, Plus, Extends;
      hide Carries;
      ghost var past := History();
      ExtendsItself(History());
      if !Owns(ws, id) { return; }
      var tx := webTxBySocket[ws];
      PacedOf(webTxBySocket, nextTx, lamps, wire, encoded, stopped, fixedSize, ws);
      if tx.queue == [] { return; }
      var packet := tx.queue[0];
      var nth := |encoded[id]| - |tx.queue|;
      DequeueKeeps(webTxBySocket, nextTx, lamps, wire, encoded, stopped, fixedSize, ws);
      HeaderAfterChange(wire, webTxBySocket, activeTxSession, ws, Dequeued(tx));
      webTxBySocket := webTxBySocket[ws := Dequeued(tx)];
      SendPacket(ws, packet, nth, target, threw);
      SentExtends(past, History());
    }

    // Whoever is live has not stopped, and every transmission is one or the other.
    lemma LiveOrStopped()
      requires Valid()
      ensures forall ws :: ws in webTxBySocket ==> webTxBySocket[ws].id !in stopped && webTxBySocket[ws].id < nextTx
      ensures forall t: nat :: t < nextTx ==> t in stopped || IsLive(webTxBySocket, t)
      ensures forall i, t :: t in stopped && stopped[t] <= i < |wire| ==> wire[i].tx != t
      ensures forall t :: t in stopped ==> stopped[t] <= |wire|
    {
      hide LampsBalanced, Queued, InOrder;
    }

    /** Any event: nothing that happened is taken back. */
    method Handle(e: Event)
      requires Valid()
      modifies this
      ensures Valid() && Extends(old(History()), History())
    {
      hide AllRunning, Numbered, Alternating, OneHeader, Backed, Extends;
      match e
      case Heard(packet, key, socket) => CacheTxSession(packet, key, socket);
      case Invalidated(flow) => InvalidateTxSession(flow);
      case Pressed(ws, com, monitorOnly) => var _ := Start(ws, com, monitorOnly);
      case Released(ws) => StopBrowser(ws, true);
      case Encoded(ws, id, packets) => EncoderOutput(ws, id, packets);
      case Exited(ws, id) => EncoderExit(ws, id);
      case Due(ws, id, target, threw) => TimerFired(ws, id, target, threw);
    }

    /** Any run: transmissions that have stopped stay stopped and send nothing more; whoever was live has stopped or
        still is; and the datagrams of the run carry, attempt by attempt, the numbers counted from the seed of their
        epoch. */
    method Run(events: seq<Event>)
      requires Valid()
      modifies this
      ensures Valid() && Extends(old(History()), History())
      ensures forall i :: |old(wire)| <= i < |wire| ==> wire[i].tx !in old(stopped)
      ensures forall ws :: ws in old(webTxBySocket) ==>
        old(webTxBySocket)[ws].id in stopped || IsLive(webTxBySocket, old(webTxBySocket)[ws].id)
      ensures CountedFrom(old(History()), History())
    {
      hide AllRunning, Numbered, Alternating, OneHeader, Backed, Extends, CountedFrom, IsLive;
      ghost var past := History();
      LiveOrStopped();
      ghost var before := stopped;
      ExtendsItself(past);
      for i := 0 to |events|
        invariant Valid() && Extends(past, History())
      {
        ghost var now := History();
        Handle(events[i]);
        ExtendsOnward(past, now, History());
      }
      LiveOrStopped();
      StoppedStayStopped(past, History());
      CountsOn(past);
    }

    lemma CountsOn(past: Past)
      requires Valid() && Extends(past, History())
      ensures CountedFrom(past, History())
    {
      hide AllRunning, Plus;
    }
  }

  /** Every later datagram has the number that its attempt gives it, counted from the seed of its epoch; as long as
      nothing reseeds these are the attempts after the earlier ones, each used once and in order. */
  ghost predicate CountedFrom(a: Past, b: Past)
  {
    && (forall i :: |a.wire| <= i < |b.wire| ==>
      && b.wire[i].epoch < |b.seeds| && b.wire[i].seqNo == Plus(b.seeds[b.wire[i].epoch], b.wire[i].attempt))
    && (a.seeds == b.seeds ==>
      && (forall i :: |a.wire| <= i < |b.wire| ==>
        b.wire[i].epoch + 1 == |b.seeds| && a.attempts < b.wire[i].attempt <= b.attempts)
      && (forall i, j :: |a.wire| <= i < j < |b.wire| ==> b.wire[i].attempt < b.wire[j].attempt))
  }

  lemma StoppedStayStopped(a: Past, b: Past)
    requires Extends(a, b)
    requires forall t :: t in a.stopped ==> a.stopped[t] <= |a.wire|
    requires forall i, t :: t in b.stopped && b.stopped[t] <= i < |b.wire| ==> b.wire[i].tx != t
    ensures forall i :: |a.wire| <= i < |b.wire| ==> b.wire[i].tx !in a.stopped
    ensures a.nextTx <= b.nextTx
  {}

  /** A transmission after its encoder produced some packets: the newest 24 are queued, with the timer set. */
  function Refilled(tx: Tx, packets: seq<Packet>): (r: Tx)
  {
    tx.(queue := Newest(tx.queue + AllNormalized(packets)), timer := tx.timer || packets != [])
  }

  lemma RefilledWithNothing(tx: Tx, packets: seq<Packet>)
    requires packets == [] && |tx.queue| <= QUEUE_LIMIT
    ensures Refilled(tx, packets) == tx
  {
    assert tx.queue + AllNormalized(packets) == tx.queue;
  }

  lemma RefilledMore(tx: Tx, packets: seq<Packet>, i: nat)
    requires i < |packets|
    ensures var r := Refilled(tx, packets[..i]);
      Refilled(tx, packets[..i + 1]) == r.(queue := Pushed(r.queue, Normalized(packets[i])), timer := true)
    ensures Refilled(tx, packets[..i]).id == tx.id && Refilled(tx, packets[..i]).monitorOnly == tx.monitorOnly
  {
    assert AllNormalized(packets[..i + 1]) == AllNormalized(packets[..i]) + [Normalized(packets[i])];
    PushedIsNewest(tx.queue, AllNormalized(packets[..i]), Normalized(packets[i]));
  }

  function AllNormalized(packets: seq<Packet>): (r: seq<Packet>)
  {
    seq(|packets|, i requires 0 <= i < |packets| => Normalized(packets[i]))
  }
}
