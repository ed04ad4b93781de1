/** Who owns browser transmission: the route, the flow and the session bytes, and their coupling with the transmitting
    session and the UDP flows. */
module VoiceRouting {
  import opened Options
  import opened Bytes
  import opened VoiceProxy
  import opened WebTx

  /** activeKey, activeTarget and sessionBytes of the router, with the host of the active route. */
  datatype Routing = Routing(active: Option<string>, key: Option<ScopedKey>, target: Option<Target>,
                             bytes: Option<seq<byte>>)
  datatype Routed = Routed(routing: Routing, passed: bool)

  const NOBODY := Routing(None, None, None, None)

  predicate IsLogin(packet: seq<byte>)
  {
    |packet| >= 16 && U16LE(packet, 0) == CLASS_CONTROL && U16LE(packet, 2) == 3
  }

  predicate IsSessionSetup(packet: seq<byte>)
    requires |packet| >= 16
  {
    U16LE(packet, 0) == CLASS_SESSION && U16LE(packet, 2) == 5
  }

  predicate IsSeedPacket(packet: seq<byte>)
    requires |packet| >= 16
  {
    IsSetup(packet) || U16LE(packet, 0) == CLASS_TXVOICE
  }

  /** What a packet on a flow of the route of `host` does, and whether it is passed on to Web TX. */
  function Route(r: Routing, host: string, key: ScopedKey, target: Target, packet: seq<byte>): (d: Routed)
  {
    var r1 := if IsLogin(packet) then Routing(Some(host), Some(key), Some(target), None) else r;
    if r1.active != Some(host) || |packet| < 16 then Routed(r1, false) else
      var bytes := SessionBytes(packet);
      var r2 := if r1.bytes.None? && r1.key == Some(key) && IsSessionSetup(packet) && !AllZero(bytes)
        then r1.(bytes := Some(bytes)) else r1;
      if !IsSeedPacket(packet) || r2.bytes != Some(bytes) then Routed(r2, false)
      else Routed(r2.(key := Some(key), target := Some(target)), true)
  }

  // ---------------------------------------------------------------------------
  // Ownership
  // ---------------------------------------------------------------------------

  /** A packet that may teach the session bytes: a non-zero session setup on the flow that the routing names. */
  predicate Teaches(r: Routing, host: string, key: ScopedKey, packet: seq<byte>)
  {
    && |packet| >= 16 && IsSessionSetup(packet) && !AllZero(SessionBytes(packet))
    && r.active == Some(host) && r.key == Some(key)
  }

  lemma OwnershipRules(r: Routing, host: string, key: ScopedKey, target: Target, packet: seq<byte>)
    ensures var d := Route(r, host, key, target, packet);
      && (d.routing.active == r.active || (IsLogin(packet) && d.routing.active == Some(host)))
      && (d.routing.bytes == r.bytes || IsLogin(packet)
          || (r.bytes.None? && Teaches(r, host, key, packet) && d.routing.bytes == Some(SessionBytes(packet))))
    ensures var d := Route(r, host, key, target, packet);
      d.passed ==>
        && d.routing.active == Some(host) && d.routing.key == Some(key) && d.routing.target == Some(target)
        && |packet| >= 16 && IsSeedPacket(packet) && d.routing.bytes == Some(SessionBytes(packet))
    ensures var d := Route(r, host, key, target, packet);
      !IsLogin(packet) && d.routing.bytes.None? ==> d.routing == r && !d.passed
  {
    hide U16LE, IsSetup;
  }

  /** A login: class 0xBEF4, subtype 3. */
  predicate LogsIn(packet: seq<byte>)
  {
    |packet| >= 16 && U16LE(packet, 0) == 0xBEF4 && U16LE(packet, 2) == 3
  }

  /** A packet that can teach Web TX: native voice or one of the three setup packets. */
  predicate CanSeed(packet: seq<byte>)
  {
    && |packet| >= 16
    && (|| U16LE(packet, 0) == 0xBEF2
        || (U16LE(packet, 0) == 0xBEF0 && U16LE(packet, 2) == 5)
        || (U16LE(packet, 0) == 0xBEF1 && U16LE(packet, 2) == 0)
        || (U16LE(packet, 0) == 0xBEF4 && U16LE(packet, 2) == 1))
  }

  /** The session bytes of the packet are the router's, or are learned from it: from a session setup on the flow that
      the routing names, when they are not all zero and none are known. */
  predicate BytesAgree(r: Routing, key: ScopedKey, packet: seq<byte>)
    requires |packet| >= 16
  {
    || r.bytes == Some(packet[4..12])
    || (&& r.bytes == None && r.key == Some(key)
        && U16LE(packet, 0) == 0xBEF0 && U16LE(packet, 2) == 5 && (exists i :: 4 <= i < 12 && packet[i] != 0))
  }

  /** The whole effect of a packet: a login takes over, and nothing else does; on the active route a packet is passed on
      exactly when it can seed and its session bytes agree, and then its flow owns the session; any other packet changes
      nothing. */
  lemma RouteExactly(r: Routing, host: string, key: ScopedKey, target: Target, packet: seq<byte>)
    ensures var d := Route(r, host, key, target, packet);
      var passes := !LogsIn(packet) && r.active == Some(host) && CanSeed(packet) && BytesAgree(r, key, packet);
      && d.passed == passes
      && d.routing == (
        if LogsIn(packet) then Routing(Some(host), Some(key), Some(target), None)
        else if passes then Routing(Some(host), Some(key), Some(target), Some(packet[4..12]))
        else r)
  {
    hide U16LE;
    if |packet| >= 16 {
      var bytes := SessionBytes(packet);
      assert AllZero(bytes) <==> !(exists i :: 4 <= i < 12 && packet[i] != 0) by {
        assert forall i :: 4 <= i < 12 ==> bytes[i - 4] == packet[i];
        assert forall i :: 0 <= i < 8 ==> bytes[i] == packet[i + 4];
      }
      SetupClasses(packet);
    }
  }

  datatype Event =
    | Packet(host: string, key: ScopedKey, target: Target, packet: seq<byte>)
    | Clear

  function Step(r: Routing, e: Event): (d: Routing)
  {
    match e
    case Packet(host, key, target, packet) => Route(r, host, key, target, packet).routing
    case Clear => NOBODY
  }

  function Run(r: Routing, events: seq<Event>): (d: Routing)
    decreases |events|
  {
    if events == [] then r else
      Step(Run(r, events[..|events| - 1]), events[|events| - 1])
  }

  /** No login and no reset. */
  predicate Quiet(e: Event) { e.Packet? && !IsLogin(e.packet) }

  predicate Owned(r: Routing, active: Option<string>, bytes: seq<byte>) { r.active == active && r.bytes == Some(bytes) }

  /** Between two logins or resets the route stays, and the session bytes are written at most once, by a non-zero
      setup packet on the flow that logged in, whatever else arrives on whatever routes: up to event i nothing has
      changed, event i teaches, and ever after it the bytes are those of that packet. */
  lemma {:induction false} BytesAreLearnedOnce(login: Routing, events: seq<Event>) returns (i: nat)
    requires login.active.Some? && login.bytes.None? && forall k :: 0 <= k < |events| ==> Quiet(events[k])
    ensures LearnedAt(login, events, i)
    decreases |events|
  {
    if events == [] { return 0; }
    hide LearnedAt, Route;
    var n := |events| - 1;
    i := BytesAreLearnedOnce(login, events[..n]);
    i := LearnedLater(login, events[..n], events[n], i);
    assert events == events[..n] + [events[n]];
  }

  ghost predicate LearnedAt(login: Routing, events: seq<Event>, i: nat)
  {
    && i <= |events| && Run(login, events[..i]) == login
    && (i < |events| ==>
      var e := events[i];
      && e.Packet? && Teaches(login, e.host, e.key, e.packet)
      && forall j :: i < j <= |events| ==> Owned(Run(login, events[..j]), login.active, SessionBytes(e.packet)))
  }

  lemma LearnedLater(login: Routing, front: seq<Event>, e: Event, i: nat) returns (k: nat)
    requires login.active.Some? && login.bytes.None? && LearnedAt(login, front, i) && Quiet(e)
    ensures LearnedAt(login, front + [e], k)
  {
    hide Route, IsLogin, U16LE, AllZero;
    var events, n := front + [e], |front|;
    assert front[..n] == front && events[..n] == front && events[..n + 1] == events;
    OwnershipRules(Run(login, front), e.host, e.key, e.target, e.packet);
    var r := Run(login, events);
    assert r == Step(Run(login, front), e);
    if i == n {
      k := if r.bytes.None? then n + 1 else n;
    } else {
      k := i;
      assert events[..i] == front[..i] && events[i] == front[i];
      forall j | i < j <= n + 1
        ensures Owned(Run(login, events[..j]), login.active, SessionBytes(events[i].packet))
      {
        if j <= n { assert events[..j] == front[..j]; }
      }
    }
  }

  /** While nothing is learned the owner is the flow that logged in, so a later close of any other flow is harmless. */
  lemma UnlearnedMeansLoginFlow(login: Routing, events: seq<Event>)
    requires login.active.Some? && login.bytes.None? && forall k :: 0 <= k < |events| ==> Quiet(events[k])
    requires Run(login, events).bytes.None?
    ensures Run(login, events).key == login.key && Run(login, events).target == login.target
  {
    var i := BytesAreLearnedOnce(login, events);
    assert events[..|events|] == events;
  }

  // ---------------------------------------------------------------------------
  // The coupling of router, UDP flows and Web TX
  // ---------------------------------------------------------------------------

  /** `address`, `clients` and `targets` belong to the active route. Web TX has a session exactly when the router has
      learned session bytes; then it is the session of the owning flow, on the socket that the flow uses now. */
  ghost predicate Coupled(r: Routing, address: string, clients: map<FlowKey, Socket>, targets: map<FlowKey, Target>,
                          session: Option<TxSession>)
  {
    && (r.active.None? ==> r == NOBODY)
    && (r.active.Some? ==>
      && r.key.Some? && r.key.value.address == address && r.key.value.flow in clients && r.key.value.flow in targets
      && r.target == Some(targets[r.key.value.flow]))
    && (session.Some? <==> r.bytes.Some?)
    && (session.Some? ==>
      && r.active.Some? && |r.bytes.value| == 8 && !AllZero(r.bytes.value)
      && session.value.clientKey == r.key.value && |session.value.header| == 12
      && session.value.header[4..12] == r.bytes.value
      && session.value.serverSock == clients[r.key.value.flow])
  }

  /** The session after a packet has gone through router and Web TX. */
  function SessionAfter(r: Routing, session: Option<TxSession>, host: string, key: ScopedKey, target: Target,
                        socket: Socket, packet: seq<byte>): (next: Option<TxSession>)
  {
    var kept := if IsLogin(packet) then None else session;
    if Route(r, host, key, target, packet).passed then Learned(kept, packet, key, socket) else kept
  }

  /** A packet on any flow of any route keeps the coupling. */
  lemma RouteKeepsCoupling(r: Routing, session: Option<TxSession>, address: string, clients: map<FlowKey, Socket>,
                           targets: map<FlowKey, Target>, host: string, hostAddress: string,
                           hostClients: map<FlowKey, Socket>, hostTargets: map<FlowKey, Target>, flow: FlowKey,
                           packet: seq<byte>)
    requires Coupled(r, address, clients, targets, session)
    requires r.active == Some(host) ==> address == hostAddress && clients == hostClients && targets == hostTargets
    requires flow in hostClients && flow in hostTargets
    ensures var key := ScopedKey(hostAddress, flow);
      var d := Route(r, host, key, hostTargets[flow], packet);
      var next := SessionAfter(r, session, host, key, hostTargets[flow], hostClients[flow], packet);
      if d.routing.active == Some(host) then Coupled(d.routing, hostAddress, hostClients, hostTargets, next)
      else d.routing == r && next == session
  {
    hide U16LE, IsSetup, LE16, AllZero;
    var key, target, socket := ScopedKey(hostAddress, flow), hostTargets[flow], hostClients[flow];
    var d := Route(r, host, key, target, packet);
    if |packet| >= 16 { SetupIsSeed(packet); }
    if d.passed {
      var kept := if IsLogin(packet) then None else session;
      OwnershipRules(r, host, key, target, packet);
      LearnedBelongs(kept, packet, key, socket);
      BytesAreNotZero(r, host, key, target, packet);
    }
  }

  lemma SetupIsSeed(packet: seq<byte>)
    requires |packet| >= 16
    ensures IsSessionSetup(packet) ==> IsSeedPacket(packet)
    ensures IsLogin(packet) ==> !IsSeedPacket(packet)
  {
    hide U16LE;
  }

  lemma LearnedBelongs(current: Option<TxSession>, packet: seq<byte>, key: ScopedKey, socket: Socket)
    requires |packet| >= 16 && IsSeedPacket(packet) && !AllZero(SessionBytes(packet))
    ensures var next := Learned(current, packet, key, socket);
      && next.Some? && next.value.clientKey == key && |next.value.header| == 12
      && next.value.header[4..12] == SessionBytes(packet)
      && (next.value.serverSock == socket || next == current)
  {
    hide U16LE, IsSetup, LE16, AllZero;
  }

  lemma BytesAreNotZero(r: Routing, host: string, key: ScopedKey, target: Target, packet: seq<byte>)
    requires r.bytes.Some? ==> !AllZero(r.bytes.value)
    ensures var d := Route(r, host, key, target, packet);
      d.routing.bytes.Some? ==> !AllZero(d.routing.bytes.value)
  {
    hide U16LE, IsSetup, AllZero;
  }

  // ---------------------------------------------------------------------------
  // When a setup packet rewinds the sequence number
  // ---------------------------------------------------------------------------

  const DERIVED_PREFIX: seq<byte> := LE16(CLASS_TXVOICE) + LE16(SUBTYPE_VOICE)

  /** A setup packet that the router passes on while there is a session rewinds the sequence number, so that the next
      datagram has number 0 again, exactly when it comes on another flow than the owner's, or the session's header
      does not begin like a derived one: its session bytes are those of the session anyway. */
  lemma PassedSetupRewinds(r: Routing, session: TxSession, address: string, clients: map<FlowKey, Socket>,
                           targets: map<FlowKey, Target>, host: string, key: ScopedKey, target: Target, socket: Socket,
                           packet: seq<byte>)
    requires Coupled(r, address, clients, targets, Some(session))
    requires Route(r, host, key, target, packet).passed && U16LE(packet, 0) != CLASS_TXVOICE
    ensures var next := SessionAfter(r, Some(session), host, key, target, socket, packet);
      var rewinds := r.key != Some(key) || session.header[..4] != DERIVED_PREFIX;
      && (rewinds <==> Reseeds(Some(session), packet, key))
      && (!rewinds ==> next == Some(session))
      && (rewinds ==> next.Some? && next.value.seqNo == DERIVED_INITIAL_SEQ && Plus(next.value.seqNo, 1) == 0)
  {
    hide U16LE, IsSetup, AllZero, LE16;
    SetupIsSeed(packet);
    OwnershipRules(r, host, key, target, packet);
    BytesAreNotZero(r, host, key, target, packet);
    var bytes := SessionBytes(packet);
    assert bytes == session.header[4..12];
    SplitHeader(session.header, bytes);
  }

  lemma SplitHeader(header: seq<byte>, bytes: seq<byte>)
    requires |header| == 12 && |bytes| == 8 && header[4..12] == bytes
    ensures header == DerivedHeader(bytes) <==> header[..4] == DERIVED_PREFIX
  {
    hide LE16;
    assert header == header[..4] + header[4..12];
    assert DerivedHeader(bytes) == DERIVED_PREFIX + bytes;
    assert DerivedHeader(bytes)[..4] == DERIVED_PREFIX;
  }

  const BYTES: seq<byte> := [1, 2, 3, 4, 5, 6, 7, 8]
  const LOGIN: seq<byte> := LE16(CLASS_CONTROL) + LE16(3) + BYTES + LE32(0)
  const SETUP: seq<byte> := LE16(CLASS_SESSION) + LE16(5) + BYTES + LE32(0)
  const NATIVE: seq<byte> := LE16(CLASS_TXVOICE) + LE16(1) + BYTES + LE32(41)

  lemma PacketFields(cls: nat, subtype: nat, number: nat)
    requires cls < 0x1_0000 && subtype < 0x1_0000 && number < 0x1_0000_0000
    ensures var p := LE16(cls) + LE16(subtype) + BYTES + LE32(number);
      && |p| == 16 && U16LE(p, 0) == cls && U16LE(p, 2) == subtype && SessionBytes(p) == BYTES && U32LE(p, 12) == number
      && p[..12] == LE16(cls) + LE16(subtype) + BYTES
  {
    hide LE16, LE32;
    var p := LE16(cls) + LE16(subtype) + BYTES + LE32(number);
    assert p[0] == LE16(cls)[0] && p[1] == LE16(cls)[1];
    assert p[2] == LE16(subtype)[0] && p[3] == LE16(subtype)[1];
    assert p[12] == LE32(number)[0] && p[13] == LE32(number)[1] && p[14] == LE32(number)[2] && p[15] == LE32(number)[3];
  }

  /** One packet through router and Web TX. */
  function Receive(r: Routing, session: Option<TxSession>, host: string, key: ScopedKey, target: Target, socket: Socket,
                   packet: seq<byte>): (Routing, Option<TxSession>)
  {
    (Route(r, host, key, target, packet).routing, SessionAfter(r, session, host, key, target, socket, packet))
  }

  /** An input: after login and setup the numbers begin at 0. A native packet with another subtype moves them to 42,
      and the next setup packet of the same session, on the same flow, back to 0. */
  lemma SetupAfterNativeRewinds(host: string, key: ScopedKey, target: Target, socket: Socket)
    ensures var (r1, s1) := Receive(NOBODY, None, host, key, target, socket, LOGIN);
      var (r2, s2) := Receive(r1, s1, host, key, target, socket, SETUP);
      var (r3, s3) := Receive(r2, s2, host, key, target, socket, NATIVE);
      var (r4, s4) := Receive(r3, s3, host, key, target, socket, SETUP);
      && s1 == None && s2.Some? && Plus(s2.value.seqNo, 1) == 0
      && s3.Some? && Plus(s3.value.seqNo, 1) == 42
      && s4.Some? && Plus(s4.value.seqNo, 1) == 0 && r4 == r3 == r2
  {
    hide Receive;
    LoginReceived(host, key, target, socket);
    SetupReceived(host, key, target, socket, None);
    NativeReceived(host, key, target, socket);
    SetupReceived(host, key, target, socket, Some(NativeSession(key, socket)));
  }

  function NativeSession(key: ScopedKey, socket: Socket): TxSession
  {
    TxSession(key, socket, NATIVE[..12], 41)
  }

  function DerivedSession(key: ScopedKey, socket: Socket): TxSession
  {
    TxSession(key, socket, DerivedHeader(BYTES), DERIVED_INITIAL_SEQ)
  }

  // The setup packet after the login, or after the native packet.
  lemma SetupReceived(host: string, key: ScopedKey, target: Target, socket: Socket, session: Option<TxSession>)
    requires session == None || session == Some(NativeSession(key, socket))
    ensures Receive(Routing(Some(host), Some(key), Some(target), if session.None? then None else Some(BYTES)), session,
                    host, key, target, socket, SETUP)
         == (Routing(Some(host), Some(key), Some(target), Some(BYTES)), Some(DerivedSession(key, socket)))
  {
    hide U16LE, U32LE, LE16, LE32, DerivedHeader;
    PacketFields(CLASS_SESSION, 5, 0);
    assert !AllZero(BYTES) by { assert BYTES[0] == 1; }
    OtherSubtype();
  }

  lemma NativeReceived(host: string, key: ScopedKey, target: Target, socket: Socket)
    ensures var r := Routing(Some(host), Some(key), Some(target), Some(BYTES));
      Receive(r, Some(DerivedSession(key, socket)), host, key, target, socket, NATIVE)
      == (r, Some(NativeSession(key, socket)))
  {
    hide U16LE, U32LE, LE16, LE32, DerivedHeader;
    PacketFields(CLASS_TXVOICE, 1, 41);
  }

  lemma LoginReceived(host: string, key: ScopedKey, target: Target, socket: Socket)
    ensures Receive(NOBODY, None, host, key, target, socket, LOGIN)
         == (Routing(Some(host), Some(key), Some(target), None), None)
  {
    hide U16LE, LE16, LE32;
    PacketFields(CLASS_CONTROL, 3, 0);
  }

  lemma OtherSubtype()
    ensures NATIVE[..12] != DerivedHeader(BYTES)
  {
    PacketFields(CLASS_TXVOICE, 1, 41);
    assert NATIVE[..12][2] == 1 && DerivedHeader(BYTES)[2] == 0;
  }

  // ---------------------------------------------------------------------------
  // One socket for each transmission
  // ---------------------------------------------------------------------------

  /** Every datagram went to the target of its own socket; one transmission uses one socket, the one of the session
      while it is live. */
  ghost predicate OneSocket(wire: seq<Sent>, live: map<Browser, Tx>, session: Option<TxSession>)
  {
    && (forall i :: 0 <= i < |wire| ==> wire[i].target == wire[i].socket.target)
    && (forall i, j :: 0 <= i < j < |wire| && wire[i].tx == wire[j].tx ==> wire[i].socket == wire[j].socket)
    && (forall i, ws :: 0 <= i < |wire| && ws in live && live[ws].id == wire[i].tx && !live[ws].monitorOnly ==>
      session.Some? && wire[i].socket == session.value.serverSock)
  }

  lemma SocketsAfterLearning(wire: seq<Sent>, live: map<Browser, Tx>, session: Option<TxSession>, next: TxSession)
    requires OneSocket(wire, live, session) && Backed(live, session)
    requires session.Some? && SameSession(session.value, next) ==> session.value.serverSock == next.serverSock
    ensures OneSocket(wire, Survivors(live, session, next), Some(next))
  {}

  lemma SocketsAfterReset(wire: seq<Sent>, live: map<Browser, Tx>, session: Option<TxSession>)
    requires OneSocket(wire, live, session)
    ensures OneSocket(wire, MonitorsOnly(live), None)
  {}

  lemma SocketsAfterStop(wire: seq<Sent>, live: map<Browser, Tx>, session: Option<TxSession>, ws: Browser)
    requires OneSocket(wire, live, session)
    ensures OneSocket(wire, live - {ws}, session)
  {}

  lemma SocketsAfterSend(wire: seq<Sent>, live: map<Browser, Tx>, session: TxSession, next: TxSession, ws: Browser,
                         tx: Tx, d: Sent)
    requires OneSocket(wire, live, Some(session)) && ws in live && !live[ws].monitorOnly
    requires tx.id == live[ws].id && d.tx == tx.id && next.serverSock == session.serverSock
    requires d.socket == session.serverSock && d.target == d.socket.target
    ensures OneSocket(wire + [d], live[ws := tx], Some(next))
  {
    var w := wire + [d];
    assert forall i :: 0 <= i < |w| ==> w[i] == if i < |wire| then wire[i] else d;
  }

  lemma SocketsAfterChange(wire: seq<Sent>, live: map<Browser, Tx>, session: Option<TxSession>, ws: Browser, tx: Tx,
                           next: Option<TxSession>)
    requires OneSocket(wire, live, session)
    requires (session.Some? ==> next.Some? && next.value.serverSock == session.value.serverSock)
    requires (ws in live && tx.id == live[ws].id && tx.monitorOnly == live[ws].monitorOnly)
          || forall i :: 0 <= i < |wire| ==> wire[i].tx != tx.id
    ensures OneSocket(wire, live[ws := tx], next)
  {}

  /** The transmissions after a packet has gone through router and Web TX. */
  function LiveAfter(r: Routing, session: Option<TxSession>, host: string, key: ScopedKey, target: Target,
                     socket: Socket, packet: seq<byte>, live: map<Browser, Tx>): (next: map<Browser, Tx>)
  {
    var kept := if IsLogin(packet) then None else session;
    var left := if IsLogin(packet) then MonitorsOnly(live) else live;
    var next := SessionAfter(r, session, host, key, target, socket, packet);
    if Route(r, host, key, target, packet).passed && next.Some? then Survivors(left, kept, next.value) else left
  }

  lemma PacketKeepsSockets(r: Routing, session: Option<TxSession>, host: string, key: ScopedKey, target: Target,
                           socket: Socket, packet: seq<byte>, wire: seq<Sent>, live: map<Browser, Tx>)
    requires OneSocket(wire, live, session) && Backed(live, session)
    requires session.Some? && session.value.clientKey == key ==> session.value.serverSock == socket
    requires r.bytes.Some? ==> !AllZero(r.bytes.value)
    ensures OneSocket(wire, LiveAfter(r, session, host, key, target, socket, packet, live),
      SessionAfter(r, session, host, key, target, socket, packet))
  {
    hide U16LE, IsSetup, LE16, AllZero, Learned, MonitorsOnly, OneSocket, Route, Survivors;
    SocketsAfterReset(wire, live, session);
    NothingButMonitors(live);
    var kept := if IsLogin(packet) then None else session;
    var left := if IsLogin(packet) then MonitorsOnly(live) else live;
    if Route(r, host, key, target, packet).passed {
      OwnershipRules(r, host, key, target, packet);
      BytesAreNotZero(r, host, key, target, packet);
      LearnedBelongs(kept, packet, key, socket);
      SocketsAfterLearning(wire, left, kept, Learned(kept, packet, key, socket).value);
    }
  }

  lemma NothingButMonitors(live: map<Browser, Tx>)
    ensures Backed(MonitorsOnly(live), None)
  {}

  lemma SocketsAfterTimer(live: map<Browser, Tx>, session: Option<TxSession>, wire: seq<Sent>, ws: Browser, id: nat,
                          target: Target, threw: bool, live': map<Browser, Tx>, session': Option<TxSession>,
                          wire': seq<Sent>)
    requires OneSocket(wire, live, session) && Fired(live, session, wire, ws, id, target, threw, live', session', wire')
    requires session.Some? ==> target == session.value.serverSock.target
    ensures OneSocket(wire', live', session')
    ensures wire' == wire || (session.Some? && wire' != [] && wire' == wire + [wire'[|wire'| - 1]])
    ensures (session.None? <==> session'.None?)
    ensures session.Some? ==>
      SameSession(session.value, session'.value) && session'.value.serverSock == session.value.serverSock
  {
    hide Plus, OneSocket;
    if ws in live && live[ws].id == id && live[ws].queue != [] {
      if threw {
        SocketsAfterChange(wire, live, session, ws, Dequeued(live[ws]), session');
      } else {
        SocketsAfterSend(wire, live, session.value, session'.value, ws, Dequeued(live[ws]), wire'[|wire'| - 1]);
      }
    }
  }

  lemma CoupledToSame(r: Routing, address: string, clients: map<FlowKey, Socket>, targets: map<FlowKey, Target>,
                      session: Option<TxSession>, next: Option<TxSession>)
    requires Coupled(r, address, clients, targets, session) && (session.None? <==> next.None?)
    requires session.Some? ==>
      SameSession(session.value, next.value) && next.value.serverSock == session.value.serverSock
    ensures Coupled(r, address, clients, targets, next)
  {}
}
