/** The TS2 voice router: one local endpoint for each server, and the ownership of browser transmission. */
module VoiceRouter {
  import opened Options
  import opened Bytes
  import opened VoiceProxy
  import opened WebTx
  import opened VoiceRouting
  import opened VoiceHosts

  const MAX_SERVERS := 32

  // ---------------------------------------------------------------------------
  // Endpoint readiness
  // ---------------------------------------------------------------------------

  /** A route: its host, its local address, its proxy, and the promise that both transports listen. */
  class Endpoint {
    const host: string
    const address: string
    const proxy: VoiceProxy
    var remaining: int
    var settled: bool
    var failure: bool
    var timer: bool
    var resolutions: nat  // how often the ready promise was resolved
    var rejections: nat
    ghost var tcpListening: bool
    ghost var udpListening: bool

    /** The promise is settled once; it resolves only when both transports listen and nothing had failed, and the bind
        timer runs exactly while it is open. */
    ghost predicate Valid()
      reads this
    {
      && resolutions + rejections == (if settled then 1 else 0) && (timer <==> !settled)
      && (resolutions == 1 ==> tcpListening && udpListening)
      && (rejections == 1 ==> failure)
      && (!settled ==> !failure && remaining == (if tcpListening then 0 else 1) + (if udpListening then 0 else 1) > 0)
    }

    constructor (host: string, address: string, proxy: VoiceProxy)
      ensures Valid() && this.host == host && this.address == address && this.proxy == proxy && !settled && !failure
    {
      this.host, this.address, this.proxy := host, address, proxy;
      remaining, settled, failure, timer, resolutions, rejections := 2, false, false, true, 0, 0;
      tcpListening, udpListening := false, false;
    }

    /** The transport has called back. */
    ghost predicate Called(tcp: bool)
      reads this
    {
      if tcp then tcpListening else udpListening
    }

    /** A callback of this transport resolves the promise. */
    ghost predicate Completes(tcp: bool)
      reads this
    {
      !settled && Called(!tcp)
    }

    /** The listen callback of one transport; each transport calls it at most once. */
    method Listening(tcp: bool)
      requires Valid() && !Called(tcp)
      modifies this
      ensures Valid() && tcpListening == (old(tcpListening) || tcp) && udpListening == (old(udpListening) || !tcp)
      ensures failure == old(failure) && rejections == old(rejections)
      ensures resolutions == old(resolutions) + if old(Completes(tcp)) then 1 else 0
    {
      if tcp { tcpListening := true; } else { udpListening := true; }
      if settled { return; }
      remaining := remaining - 1;
      if remaining != 0 { return; }
      settled := true;
      timer := false;
      resolutions := resolutions + 1;
    }

    /** The part of fail() that concerns the promise. */
    method MarkFailed()
      requires Valid() && !failure
      modifies this
      ensures Valid() && failure && settled && resolutions == old(resolutions)
      ensures rejections == old(rejections) + if old(settled) then 0 else 1
      ensures tcpListening == old(tcpListening) && udpListening == old(udpListening)
    {
      failure := true;
      if settled { return; }
      settled := true;
      timer := false;
      rejections := rejections + 1;
    }
  }

  // ---------------------------------------------------------------------------
  // The router
  // ---------------------------------------------------------------------------

  lemma NobodyIsCoupled()
    ensures Coupled(NOBODY, "", map[], map[], None)
  {}

  /** Different hosts have different routes, addresses and proxies. */
  ghost predicate AllApart(routes: map<string, Endpoint>)
  {
    forall g, h :: g in routes && h in routes && g != h ==>
      routes[g] != routes[h] && routes[g].address != routes[h].address && routes[g].proxy != routes[h].proxy
  }

  lemma ApartWith(routes: map<string, Endpoint>, host: string, e: Endpoint)
    requires AllApart(routes) && host !in routes
    requires forall h :: h in routes ==> routes[h] != e && routes[h].address != e.address && routes[h].proxy != e.proxy
    ensures AllApart(routes[host := e])
  {}

  datatype Reply = Rejected | Promise(endpoint: Endpoint)

  class VoiceRouter {
    const port: nat
    const hash: string -> Hash
    const webTx: WebTx
    var routes: map<string, Endpoint>
    var active: Option<string>
    var activeKey: Option<ScopedKey>
    var activeTarget: Option<Target>
    var sessionBytes: Option<seq<byte>>
    var closed: bool

    function Current(): Routing
      reads this
    {
      Routing(active, activeKey, activeTarget, sessionBytes)
    }

    ghost function Proxies(): set<VoiceProxy>
      reads `routes
    {
      set h | h in routes :: routes[h].proxy
    }

    /** At most 32 routes; host and address determine each other, and an address depends on its host alone. */
    ghost predicate Allocated()
      reads `routes
    {
      && |routes| <= MAX_SERVERS
      && (forall h :: h in routes ==>
        routes[h].host == h && routes[h].address == LocalAddress(hash(h)) && SupportedHost(h))
      && AllApart(routes)
    }

    /** The proxies of the routes are in order, and every flow was opened for the server of its route. */
    ghost predicate Serving()
      reads `routes, routes.Values, Proxies()
    {
      forall h :: h in routes ==>
        && routes[h].Valid() && routes[h].proxy.Valid() && routes[h].proxy.realServer == h
        && forall k :: k in routes[h].proxy.udpClients ==> routes[h].proxy.udpClients[k].server == h
    }

    ghost predicate Owned()
      reads this, Proxies(), webTx
    {
      && (active.Some? ==> active.value in routes)
      && (if active.None? then Coupled(Current(), "", map[], map[], webTx.activeTxSession)
          else var r := routes[active.value];
            Coupled(Current(), r.address, r.proxy.udpClients, r.proxy.udpTargets, webTx.activeTxSession))
    }

    /** Everything but the ownership. */
    ghost predicate Ready()
      reads this, routes.Values, Proxies(), webTx
    {
      && Allocated() && Serving() && webTx.Valid()
      && OneSocket(webTx.wire, webTx.webTxBySocket, webTx.activeTxSession)
    }

    ghost predicate Valid()
      reads this, routes.Values, Proxies(), webTx
    {
      Ready() && Owned()
    }

    constructor (port: nat, hash: string -> Hash, webTx: WebTx)
      requires webTx.Valid() && webTx.activeTxSession.None? && webTx.wire == []
      ensures Valid() && routes == map[] && Current() == NOBODY && !closed
      ensures this.port == port && this.hash == hash && this.webTx == webTx
    {
      hide WebTx.Valid, Coupled;
      NobodyIsCoupled();
      this.port, this.hash, this.webTx := port, hash, webTx;
      routes, active, activeKey, activeTarget, sessionBytes, closed := map[], None, None, None, None, false;
    }

    /** Forget the owner; Web TX loses its session. */
    method ClearActive()
      requires Ready()
      modifies this`active, this`activeKey, this`activeTarget, this`sessionBytes, webTx
      ensures Valid() && Current() == NOBODY && webTx.activeTxSession.None? && webTx.wire == old(webTx.wire)
      ensures webTx.webTxBySocket == MonitorsOnly(old(webTx.webTxBySocket))
      ensures Extends(old(webTx.History()), webTx.History())
    {
      hide Allocated, Coupled, OneSocket, WebTx.Valid, MonitorsOnly, Endpoint.Valid, VoiceProxy.Valid, Extends;
      hide Halted, OnlyOff, Taught, OffCall, LampCalls;
      SocketsAfterReset(webTx.wire, webTx.webTxBySocket, webTx.activeTxSession);
      active := None;
      activeKey := None;
      activeTarget := None;
      sessionBytes := None;
      webTx.InvalidateTxSession(None);
      NobodyIsCoupled();
    }

    /** The onClientPacket callback of a route. */
    method OnClientPacket(host: string, flow: FlowKey, packet: seq<byte>, socket: Socket, target: Target)
      requires Valid() && host in routes
      requires var p := routes[host].proxy;
        flow in p.udpClients && flow in p.udpTargets && p.udpClients[flow] == socket && p.udpTargets[flow] == target
      modifies this`active, this`activeKey, this`activeTarget, this`sessionBytes, webTx
      ensures Valid()
      ensures var key := ScopedKey(routes[host].address, flow);
        && Current() == Route(old(Current()), host, key, target, packet).routing
        && webTx.activeTxSession
           == SessionAfter(old(Current()), old(webTx.activeTxSession), host, key, target, socket, packet)
      ensures webTx.wire == old(webTx.wire)
      ensures Extends(old(webTx.History()), webTx.History())
    {
      hide Allocated, OneSocket, WebTx.Valid, Endpoint.Valid, VoiceProxy.Valid, Route, Coupled, Extends;
      hide SessionAfter, LiveAfter;
      PacketKeepsOwner(host, flow, packet);
      TakePacket(host, ScopedKey(routes[host].address, flow), packet, socket, target);
    }

    // What the packet of a flow leaves is coupled again, on one socket for each transmission.
    lemma PacketKeepsOwner(host: string, flow: FlowKey, packet: seq<byte>)
      requires Valid() && host in routes
      requires flow in routes[host].proxy.udpClients && flow in routes[host].proxy.udpTargets
      ensures var r := routes[host];
        var key, socket, target := ScopedKey(r.address, flow), r.proxy.udpClients[flow], r.proxy.udpTargets[flow];
        var d := Route(Current(), host, key, target, packet);
        var next := SessionAfter(Current(), webTx.activeTxSession, host, key, target, socket, packet);
        && (if d.routing.active == Some(host)
            then Coupled(d.routing, r.address, r.proxy.udpClients, r.proxy.udpTargets, next)
            else d.routing == Current() && next == webTx.activeTxSession)
        && OneSocket(webTx.wire, LiveAfter(Current(), webTx.activeTxSession, host, key, target, socket, packet,
                                           webTx.webTxBySocket), next)
    {
      hide Allocated, AllZero, OneSocket, WebTx.Valid, MonitorsOnly, Endpoint.Valid, VoiceProxy.Valid, Route, Coupled;
      hide SessionAfter, LiveAfter;
      var r := routes[host];
      var key, socket, target := ScopedKey(r.address, flow), r.proxy.udpClients[flow], r.proxy.udpTargets[flow];
      if active.None? {
        RouteKeepsCoupling(Current(), webTx.activeTxSession, "", map[], map[],
          host, r.address, r.proxy.udpClients, r.proxy.udpTargets, flow, packet);
      } else {
        var a := routes[active.value];
        RouteKeepsCoupling(Current(), webTx.activeTxSession, a.address, a.proxy.udpClients, a.proxy.udpTargets,
          host, r.address, r.proxy.udpClients, r.proxy.udpTargets, flow, packet);
      }
      webTx.IsBacked();
      OwnerIsCoupled();
      AddressesDiffer();
      PacketKeepsSockets(Current(), webTx.activeTxSession, host, key, target, socket, packet, webTx.wire,
                         webTx.webTxBySocket);
    }

    lemma AddressesDiffer()
      requires Allocated()
      ensures forall g, h :: g in routes && h in routes && routes[g].address == routes[h].address ==> g == h
    {}

    // The part of the coupling that concerns the session bytes and the socket of the session.
    lemma OwnerIsCoupled()
      requires Owned()
      ensures sessionBytes.Some? ==> !AllZero(sessionBytes.value)
      ensures webTx.activeTxSession.Some? ==>
        && active.Some? && activeKey.Some? && webTx.activeTxSession.value.clientKey == activeKey.value
        && activeKey.value.address == routes[active.value].address
        && activeKey.value.flow in routes[active.value].proxy.udpClients
        && webTx.activeTxSession.value.serverSock == routes[active.value].proxy.udpClients[activeKey.value.flow]
    {}

    method TakePacket(host: string, scopedKey: ScopedKey, packet: seq<byte>, socket: Socket, target: Target)
      requires Valid() && host in routes
      modifies this`active, this`activeKey, this`activeTarget, this`sessionBytes, webTx
      ensures Current() == Route(old(Current()), host, scopedKey, target, packet).routing
      ensures webTx.activeTxSession
           == SessionAfter(old(Current()), old(webTx.activeTxSession), host, scopedKey, target, socket, packet)
      ensures webTx.webTxBySocket ==
        LiveAfter(old(Current()), old(webTx.activeTxSession), host, scopedKey, target, socket, packet,
                  old(webTx.webTxBySocket))
      ensures webTx.Valid() && webTx.wire == old(webTx.wire)
      ensures Extends(old(webTx.History()), webTx.History())
    {
      hide Allocated, AllZero, OneSocket, WebTx.Valid, MonitorsOnly, Endpoint.Valid;
      hide VoiceProxy.Valid, Serving, Coupled, IsSetup, Extends;
      hide Halted, OnlyOff, Taught, OffCall, LampCalls;
      ghost var past := webTx.History();
      ExtendsItself(past);
      var login := |packet| >= 16 && U16LE(packet, 0) == CLASS_CONTROL && U16LE(packet, 2) == 3;
      if login {
        ClearActive();
        active := Some(host);
        activeKey := Some(scopedKey);
        activeTarget := Some(target);
      }
      if active != Some(host) || |packet| < 16 { return; }
      var setup := U16LE(packet, 0) == CLASS_SESSION && U16LE(packet, 2) == 5;
      if sessionBytes.None? && activeKey == Some(scopedKey) && setup {
        var bytes := packet[4..12];
        if !AllZero(bytes) { sessionBytes := Some(bytes); }
      }
      if !IsSeedPacket(packet) || sessionBytes.None? || packet[4..12] != sessionBytes.value { return; }
      activeKey := Some(scopedKey);
      activeTarget := Some(target);
      ghost var mid := webTx.History();
      webTx.CacheTxSession(packet, scopedKey, socket);
      ExtendsOnward(past, mid, webTx.History());
    }

    // ------------------------------------------------------------------------
    // Changes of one proxy
    // ------------------------------------------------------------------------

    lemma Serves(host: string)
      requires Serving() && host in routes
      ensures routes[host].Valid() && ServesHost(host)
    {}

    ghost predicate ServesHost(host: string)
      requires host in routes
      reads `routes, routes[host].proxy
    {
      var p := routes[host].proxy;
      p.Valid() && p.realServer == host && forall k :: k in p.udpClients ==> p.udpClients[k].server == host
    }

    twostate lemma OnlyProxyChanged(host: string)
      requires Allocated() && old(Serving()) && routes == old(routes) && host in routes && ServesHost(host)
      requires forall h :: h in routes ==> unchanged(routes[h]) && (h != host ==> unchanged(routes[h].proxy))
      ensures Serving()
    {
      hide Endpoint.Valid, VoiceProxy.Valid;
    }

    /** A packet went to the server on the socket of its flow, and did to the ownership what Route says. */
    ghost predicate Arrived(host: string, flow: FlowKey, packet: seq<byte>, before: Routing, session: Option<TxSession>,
                            forwarded: seq<Datagram>)
      reads this, webTx, Proxies()
    {
      host in routes &&
      var p, key := routes[host].proxy, ScopedKey(routes[host].address, flow);
      && flow in p.udpClients && flow in p.udpTargets
      && p.forwarded == forwarded + [Datagram(p.udpClients[flow], p.udpTargets[flow], packet)]
      && Current() == Route(before, host, key, p.udpTargets[flow], packet).routing
      && webTx.activeTxSession
         == SessionAfter(before, session, host, key, p.udpTargets[flow], p.udpClients[flow], packet)
    }

    /** What a route has sent to its server. */
    ghost function Forwarded(host: string): seq<Datagram>
      reads `routes, Proxies()
    {
      if host in routes then routes[host].proxy.forwarded else []
    }

    /** A datagram from a local source on the endpoint of a route. */
    method UdpMessage(host: string, flow: FlowKey, packet: seq<byte>, accepted: bool)
      requires Valid() && host in routes
      modifies this`active, this`activeKey, this`activeTarget, this`sessionBytes, webTx, routes[host].proxy
      ensures Valid() && webTx.wire == old(webTx.wire)
      ensures !accepted ==> Current() == old(Current()) && unchanged(webTx) && unchanged(Proxies())
      ensures accepted ==>
        Arrived(host, flow, packet, old(Current()), old(webTx.activeTxSession), old(Forwarded(host)))
      ensures Extends(old(webTx.History()), webTx.History())
    {
      hide Valid, Route, SessionAfter, Extends;
      ghost var past := webTx.History();
      ExtendsItself(past);
      if !accepted { return; }
      var remote, target := OpenFlow(host, flow);
      OnClientPacket(host, flow, packet, remote, target);
      Forward(host, flow, remote, target, packet);
    }

    method OpenFlow(host: string, flow: FlowKey) returns (remote: Socket, target: Target)
      requires Valid() && host in routes
      modifies routes[host].proxy
      ensures Valid()
      ensures var p := routes[host].proxy;
        && flow in p.udpClients && p.udpClients[flow] == remote && flow in p.udpTargets && p.udpTargets[flow] == target
        && p.forwarded == old(p.forwarded)
        && p.udpClients == old(p.udpClients)[flow := remote] && p.udpTargets == old(p.udpTargets)[flow := target]
        && (flow in old(p.udpClients) ==> remote == old(p.udpClients)[flow] && target == old(p.udpTargets)[flow])
    {
      hide Allocated, Serving, OneSocket, WebTx.Valid, Endpoint.Valid, VoiceProxy.Valid, Coupled;
      var p := routes[host].proxy;
      Serves(host);
      remote, target := p.OpenFlow(flow);
      ProxiesDiffer();
      OnlyProxyChanged(host);
      if active.Some? {
        var a := routes[active.value];
        CoupledToMore(Current(), a.address, old(a.proxy.udpClients), old(a.proxy.udpTargets), a.proxy.udpClients,
          a.proxy.udpTargets, webTx.activeTxSession);
      }
    }

    method Forward(host: string, flow: FlowKey, remote: Socket, target: Target, packet: seq<byte>)
      requires Valid() && host in routes
      requires var p := routes[host].proxy;
        flow in p.udpClients && p.udpClients[flow] == remote && flow in p.udpTargets && p.udpTargets[flow] == target
      modifies routes[host].proxy`forwarded
      ensures Valid()
      ensures var p := routes[host].proxy; p.forwarded == old(p.forwarded) + [Datagram(remote, target, packet)]
    {
      hide Allocated, Serving, OneSocket, WebTx.Valid, Endpoint.Valid, Coupled;
      Serves(host);
      routes[host].proxy.Forward(remote, target, packet);
      ProxiesDiffer();
      OnlyProxyChanged(host);
    }

    /** A socket of a flow closed or failed: the flow ends if it still uses that socket. */
    method FlowClosed(host: string, flow: FlowKey, remote: Socket)
      requires Valid() && host in routes
      modifies this`active, this`activeKey, this`activeTarget, this`sessionBytes, webTx, routes[host].proxy
      ensures Valid() && webTx.wire == old(webTx.wire)
      ensures !old(Uses(host, flow, remote)) ==>
        Current() == old(Current()) && webTx.activeTxSession == old(webTx.activeTxSession)
      ensures routes[host].proxy.udpClients ==
        if old(Uses(host, flow, remote)) then old(routes[host].proxy.udpClients) - {flow}
        else old(routes[host].proxy.udpClients)
      ensures routes[host].proxy.forwarded == old(routes[host].proxy.forwarded)
      ensures Current() == if old(Uses(host, flow, remote) && Owns(host, flow)) then NOBODY else old(Current())
      ensures Extends(old(webTx.History()), webTx.History())
    {
      hide Allocated, Serving, OneSocket, WebTx.Valid, Endpoint.Valid, Coupled, VoiceProxy.Valid, Extends;
      ghost var past := webTx.History();
      ExtendsItself(past);
      Serves(host);
      var p := routes[host].proxy;
      var ended := p.CleanupUdpClient(flow, remote);
      ProxiesDiffer();
      OnlyProxyChanged(host);
      if active == Some(host) && !Owns(host, flow) {
        var a := routes[active.value];
        CoupledToFewer(Current(), a.address, old(a.proxy.udpClients), old(a.proxy.udpTargets), a.proxy.udpClients,
          a.proxy.udpTargets, webTx.activeTxSession, flow);
      }
      if ended { OnClientClose(host, flow); }
    }

    predicate Uses(host: string, flow: FlowKey, remote: Socket)
      requires host in routes
      reads this, routes[host].proxy
    {
      flow in routes[host].proxy.udpClients && routes[host].proxy.udpClients[flow] == remote
    }

    /** The flow is the owner. */
    predicate Owns(host: string, flow: FlowKey)
      requires host in routes
      reads this
    {
      active == Some(host) && activeKey == Some(ScopedKey(routes[host].address, flow))
    }

    /** The onClientClose callback of a route. */
    method OnClientClose(host: string, flow: FlowKey)
      requires Ready() && host in routes && (Owns(host, flow) || Owned())
      modifies this`active, this`activeKey, this`activeTarget, this`sessionBytes, webTx
      ensures Valid() && webTx.wire == old(webTx.wire)
      ensures Current() == if old(Owns(host, flow)) then NOBODY else old(Current())
      ensures !old(Owns(host, flow)) ==> webTx.activeTxSession == old(webTx.activeTxSession)
      ensures Extends(old(webTx.History()), webTx.History())
    {
      hide Allocated, OneSocket, WebTx.Valid, Endpoint.Valid, Coupled, VoiceProxy.Valid, MonitorsOnly, Extends;
      hide Halted, OnlyOff, Taught, OffCall, LampCalls;
      ghost var past := webTx.History();
      ExtendsItself(past);
      var scopedKey := ScopedKey(routes[host].address, flow);
      if active == Some(host) && activeKey == Some(scopedKey) {
        ClearActive();
      } else {
        AddressesDiffer();
        OwnerIsCoupled();
      }
      ghost var mid := webTx.History();
      webTx.InvalidateTxSession(Some(scopedKey));
      ExtendsOnward(past, mid, webTx.History());
    }

    /** Ends every flow of one route, as closing or resetting its proxy does. */
    method ResetProxy(host: string)
      requires Valid() && host in routes
      modifies this`active, this`activeKey, this`activeTarget, this`sessionBytes, webTx, routes[host].proxy
      ensures Valid() && webTx.wire == old(webTx.wire) && routes[host].proxy.udpClients == map[]
      ensures Current() == if old(active) == Some(host) then NOBODY else old(Current())
      ensures Extends(old(webTx.History()), webTx.History())
    {
      hide Valid, Extends;
      ghost var past := webTx.History();
      ExtendsItself(past);
      var rest := routes[host].proxy.udpClients.Keys;
      while rest != {}
        invariant Valid() && routes[host].proxy.udpClients.Keys == rest && webTx.wire == old(webTx.wire)
        invariant Current() == old(Current()) || (old(active) == Some(host) && Current() == NOBODY)
        invariant Extends(past, webTx.History())
        decreases rest
      {
        var flow :| flow in rest;
        ghost var mid := webTx.History();
        FlowClosed(host, flow, routes[host].proxy.udpClients[flow]);
        ExtendsOnward(past, mid, webTx.History());
        rest := rest - {flow};
      }
      if active == Some(host) { OwnerHasFlow(); }
    }

    /** resetUdpClients of the router: no owner, no flows. */
    method ResetUdpClients()
      requires Valid()
      modifies this`active, this`activeKey, this`activeTarget, this`sessionBytes, webTx, Proxies()
      ensures Valid() && Current() == NOBODY && webTx.activeTxSession.None? && webTx.wire == old(webTx.wire)
      ensures forall h :: h in routes ==> routes[h].proxy.udpClients == map[]
      ensures Extends(old(webTx.History()), webTx.History())
    {
      hide Valid, Ready, Extends;
      ghost var past := webTx.History();
      ExtendsItself(past);
      IsReady();
      ClearActive();
      var rest := routes.Keys;
      Distinct();
      while rest != {}
        invariant Valid() && Current() == NOBODY && rest <= routes.Keys && webTx.wire == old(webTx.wire)
        invariant forall h :: h in routes && h !in rest ==> routes[h].proxy.udpClients == map[]
        invariant Extends(past, webTx.History())
        decreases rest
      {
        var host :| host in rest;
        ghost var mid := webTx.History();
        ResetProxy(host);
        ExtendsOnward(past, mid, webTx.History());
        rest := rest - {host};
      }
      NobodyTalks();
    }

    // ------------------------------------------------------------------------
    // Endpoints
    // ------------------------------------------------------------------------

    twostate lemma OnlyEndpointChanged(host: string)
      requires Allocated() && old(Serving()) && routes == old(routes) && host in routes && routes[host].Valid()
      requires forall h :: h in routes ==> unchanged(routes[h].proxy) && (h != host ==> unchanged(routes[h]))
      ensures Serving()
    {
      hide Endpoint.Valid, VoiceProxy.Valid, Allocated;
    }

    lemma EndpointsDiffer()
      requires Allocated()
      ensures forall g, h :: g in routes && h in routes && g != h ==> routes[g] != routes[h]
    {}

    method EndpointListening(host: string, tcp: bool)
      requires host in routes && !routes[host].Called(tcp) && Valid()
      modifies routes[host]
      ensures Valid() && routes[host].failure == old(routes[host].failure)
      ensures routes[host].resolutions
           == old(routes[host].resolutions) + if old(routes[host].Completes(tcp)) then 1 else 0
    {
      hide Allocated, OneSocket, WebTx.Valid, Endpoint.Valid, VoiceProxy.Valid, Coupled;
      Serves(host);
      EndpointsDiffer();
      routes[host].Listening(tcp);
      OnlyEndpointChanged(host);
    }

    /** A listener failed, or the bind timer fired: the route never comes back, and its flows end. */
    method EndpointFailed(host: string)
      requires Valid() && host in routes
      modifies this`active, this`activeKey, this`activeTarget, this`sessionBytes, webTx, routes[host]
      modifies routes[host].proxy
      ensures Valid() && webTx.wire == old(webTx.wire) && routes[host].failure && routes[host].settled
      ensures routes[host].resolutions == old(routes[host].resolutions)
      ensures old(routes[host].failure) ==> Current() == old(Current())
      ensures !old(routes[host].failure) ==>
        && routes[host].proxy.udpClients == map[]
        && Current() == if old(active) == Some(host) then NOBODY else old(Current())
      ensures Extends(old(webTx.History()), webTx.History())
    {
      hide Allocated, Serving, OneSocket, WebTx.Valid, VoiceProxy.Valid, Coupled, Extends;
      ghost var past := webTx.History();
      ExtendsItself(past);
      Serves(host);
      if routes[host].failure { return; }
      EndpointsDiffer();
      var late := routes[host].settled;
      routes[host].MarkFailed();
      OnlyEndpointChanged(host);
      if late && active == Some(host) { ClearActive(); }
      ghost var mid := webTx.History();
      ResetProxy(host);
      ExtendsOnward(past, mid, webTx.History());
    }

    /** No address for the host: every place is taken, or another host has its address. */
    predicate Full(host: string)
      reads `routes
    {
      |routes| >= MAX_SERVERS || exists h :: h in routes && routes[h].address == LocalAddress(hash(host))
    }

    /** There is no place exactly when 32 hosts have one, or the hash of a known host gives the same address. */
    lemma FullExactly(host: string)
      requires Valid()
      ensures Full(host) <==> |routes| >= 32 || exists h :: h in routes && SharesAddress(hash(h), hash(host))
    {
      hide Serving, OneSocket, WebTx.Valid, Owned, LocalAddress, SupportedHost, SharesAddress;
      forall h | h in routes
        ensures routes[h].address == LocalAddress(hash(host)) <==> SharesAddress(hash(h), hash(host))
      {
        AddressesCollide(hash(h), hash(host));
      }
    }

    /** The endpoint for a host name in any letter case, with white space around it. */
    method GetEndpoint(value: string) returns (reply: Reply)
      requires Valid()
      modifies `routes
      ensures Valid() && Current() == old(Current())
      ensures var host := HostOf(value);
        closed || !SupportedHost(host) ==> reply == Rejected && routes == old(routes)
      ensures var host := HostOf(value);
        !closed && SupportedHost(host) && host in old(routes) ==>
          routes == old(routes) && reply == if routes[host].failure then Rejected else Promise(routes[host])
      ensures var host := HostOf(value);
        !closed && SupportedHost(host) && host !in old(routes) && old(Full(host)) ==>
          reply == Rejected && routes == old(routes)
      ensures var host := HostOf(value);
        !closed && SupportedHost(host) && host !in old(routes) && !old(Full(host)) ==>
          && reply.Promise? && fresh(reply.endpoint) && routes == old(routes)[host := reply.endpoint]
          && !reply.endpoint.settled
    {
      hide Allocated, Serving, OneSocket, WebTx.Valid, VoiceProxy.Valid;
      hide Coupled, LocalAddress, SupportedHost, Endpoint.Valid;
      hide HostOf;
      var host := HostOf(value);
      if !SupportedHost(host) || closed { return Rejected; }
      if host in routes {
        return if routes[host].failure then Rejected else Promise(routes[host]);
      }
      if Full(host) { return Rejected; }
      var endpoint := AddRoute(host);
      reply := Promise(endpoint);
    }

    method AddRoute(host: string) returns (endpoint: Endpoint)
      requires Valid() && SupportedHost(host) && host !in routes && !Full(host)
      modifies `routes
      ensures Valid() && fresh(endpoint) && routes == old(routes)[host := endpoint] && !endpoint.settled
    {
      hide Allocated, Serving, OneSocket, WebTx.Valid, VoiceProxy.Valid;
      hide Coupled, LocalAddress, SupportedHost, Endpoint.Valid;
      var proxy := new VoiceProxy(host, port);
      endpoint := new Endpoint(host, LocalAddress(hash(host)), proxy);
      routes := routes[host := endpoint];
      AllocatedWith(host, endpoint);
      ServingWith(host, endpoint);
    }

    twostate lemma AllocatedWith(host: string, new endpoint: Endpoint)
      requires old(Allocated()) && SupportedHost(host) && host !in old(routes) && !old(Full(host))
      requires routes == old(routes)[host := endpoint] && fresh(endpoint) && fresh(endpoint.proxy)
      requires endpoint.host == host && endpoint.address == LocalAddress(hash(host))
      ensures Allocated()
    {
      hide LocalAddress, SupportedHost, AllApart;
      assert |routes| == |old(routes)| + 1;
      ApartWith(old(routes), host, endpoint);
    }

    twostate lemma ServingWith(host: string, new endpoint: Endpoint)
      requires old(Serving()) && host !in old(routes) && routes == old(routes)[host := endpoint]
      requires endpoint.Valid() && endpoint.proxy.Valid() && endpoint.proxy.realServer == host
      requires endpoint.proxy.udpClients == map[]
      requires forall h :: h in old(routes) ==> unchanged(old(routes)[h]) && unchanged(old(routes)[h].proxy)
      ensures Serving()
    {
      hide Endpoint.Valid, VoiceProxy.Valid;
    }

    /** Close: pending promises are rejected, no owner, no flows. */
    method Close()
      requires Valid()
      modifies this`closed, this`active, this`activeKey, this`activeTarget, this`sessionBytes, webTx, routes.Values
      modifies Proxies()
      ensures Valid() && closed && Current() == NOBODY && webTx.wire == old(webTx.wire)
      ensures forall h :: h in routes ==> routes[h].settled && routes[h].proxy.udpClients == map[]
      ensures forall h :: h in routes ==> routes[h].resolutions == old(routes[h].resolutions)
      ensures Extends(old(webTx.History()), webTx.History())
    {
      hide Allocated, Serving, OneSocket, WebTx.Valid, Endpoint.Valid, VoiceProxy.Valid, Coupled, Extends;
      ghost var past := webTx.History();
      ExtendsItself(past);
      closed := true;
      ClearActive();
      ghost var mid := webTx.History();
      CloseRoutes();
      ExtendsOnward(past, mid, webTx.History());
    }

    method CloseRoutes()
      requires Valid() && Current() == NOBODY
      modifies this`active, this`activeKey, this`activeTarget, this`sessionBytes, webTx, routes.Values, Proxies()
      ensures Valid() && Current() == NOBODY && webTx.wire == old(webTx.wire)
      ensures forall h :: h in routes ==> routes[h].settled && routes[h].proxy.udpClients == map[]
      ensures forall h :: h in routes ==> routes[h].resolutions == old(routes[h].resolutions)
      ensures Extends(old(webTx.History()), webTx.History())
    {
      hide Valid, Allocated, Serving, OneSocket, WebTx.Valid, Endpoint.Valid, VoiceProxy.Valid, Extends;
      ghost var past := webTx.History();
      ExtendsItself(past);
      var rest := routes.Keys;
      Distinct();
      while rest != {}
        invariant Valid() && Current() == NOBODY && rest <= routes.Keys && webTx.wire == old(webTx.wire)
        invariant forall h :: h in routes && h !in rest ==> routes[h].settled && routes[h].proxy.udpClients == map[]
        invariant forall h :: h in routes ==> routes[h].resolutions == old(routes[h].resolutions)
        invariant Extends(past, webTx.History())
        decreases rest
      {
        var host :| host in rest;
        ghost var mid := webTx.History();
        CloseRoute(host);
        ExtendsOnward(past, mid, webTx.History());
        rest := rest - {host};
      }
    }

    method CloseRoute(host: string)
      requires Valid() && host in routes
      modifies this`active, this`activeKey, this`activeTarget, this`sessionBytes, webTx, routes[host]
      modifies routes[host].proxy
      ensures Valid() && webTx.wire == old(webTx.wire)
      ensures routes[host].settled && routes[host].proxy.udpClients == map[]
      ensures routes[host].resolutions == old(routes[host].resolutions)
      ensures old(Current()) == NOBODY ==> Current() == NOBODY
      ensures Extends(old(webTx.History()), webTx.History())
    {
      hide Valid, Extends;
      ghost var past := webTx.History();
      ExtendsItself(past);
      if !routes[host].settled { EndpointFailed(host); }
      ghost var mid := webTx.History();
      ResetProxy(host);
      ExtendsOnward(past, mid, webTx.History());
    }

    method DnsAnswer(host: string, generation: nat, addresses: Option<seq<string>>)
      requires host in routes && 0 < generation <= routes[host].proxy.dnsGeneration && Valid()
      modifies routes[host].proxy
      ensures routes[host].proxy.udpTargets == old(routes[host].proxy.udpTargets) && Valid()
      ensures routes[host].proxy.udpClients == old(routes[host].proxy.udpClients)
      ensures routes[host].proxy.realIp != old(routes[host].proxy.realIp) ==>
        generation == routes[host].proxy.dnsGeneration
    {
      hide Allocated, Serving, OneSocket, WebTx.Valid, Endpoint.Valid, Coupled;
      Serves(host);
      ProxiesDiffer();
      routes[host].proxy.DnsAnswer(generation, addresses);
      OnlyProxyChanged(host);
    }

    // ------------------------------------------------------------------------
    // Transmissions
    // ------------------------------------------------------------------------

    function GetTarget(): (t: Target)
      reads `activeTarget
    {
      if activeTarget.Some? then activeTarget.value else Target("", port)
    }

    /** Where a datagram went: on the socket that the owning flow uses now, to the target of that flow, with the session
        bytes that the router learned, to the server of the active route. */
    ghost predicate OnOwnersSocket(d: Sent)
      reads this, Proxies()
    {
      && active.Some? && activeKey.Some? && sessionBytes.Some? && active.value in routes
      && var p, flow := routes[active.value].proxy, activeKey.value.flow;
        && flow in p.udpClients && flow in p.udpTargets
        && d.socket == p.udpClients[flow] && d.target == p.udpTargets[flow] && d.socket.server == active.value
        && |d.header| == 12 && d.header[4..12] == sessionBytes.value
    }

    /** A pacing timer fires. */
    method PacingTimer(ws: Browser, id: nat, threw: bool)
      requires Valid()
      modifies webTx
      ensures Valid()
      ensures Fired(old(webTx.webTxBySocket), old(webTx.activeTxSession), old(webTx.wire), ws, id, GetTarget(), threw,
                    webTx.webTxBySocket, webTx.activeTxSession, webTx.wire)
      ensures webTx.wire == old(webTx.wire) || (webTx.wire != [] && OnOwnersSocket(webTx.wire[|webTx.wire| - 1]))
      ensures CarriesOldest(old(webTx.wire), webTx.wire, old(webTx.webTxBySocket), ws, old(webTx.activeTxSession),
                            webTx.fixedSize)
      ensures Extends(old(webTx.History()), webTx.History())
    {
      hide Allocated, OneSocket, WebTx.Valid, Endpoint.Valid, VoiceProxy.Valid, Coupled, Fired, SameSession, Extends;
      hide CarriesOldest;
      SessionPointsAtTarget();
      webTx.TimerFired(ws, id, GetTarget(), threw);
      SocketsAfterTimer(old(webTx.webTxBySocket), old(webTx.activeTxSession), old(webTx.wire), ws, id, GetTarget(),
                        threw,
        webTx.webTxBySocket, webTx.activeTxSession, webTx.wire);
      if active.Some? {
        var a := routes[active.value];
        CoupledToSame(Current(), a.address, a.proxy.udpClients, a.proxy.udpTargets, old(webTx.activeTxSession),
                      webTx.activeTxSession);
      } else {
        CoupledToSame(Current(), "", map[], map[], old(webTx.activeTxSession), webTx.activeTxSession);
      }
      if webTx.wire != old(webTx.wire) {
        FiredToOwner(old(webTx.webTxBySocket), old(webTx.activeTxSession), old(webTx.wire), ws, id, threw);
      }
    }

    // While there is a session, its socket is the owner's, and the target of the router is that socket's.
    lemma SessionPointsAtTarget()
      requires Valid()
      ensures webTx.activeTxSession.Some? ==>
        && active.Some? && activeKey.Some? && sessionBytes.Some? && active.value in routes
        && activeKey.value.flow in routes[active.value].proxy.udpClients
        && activeKey.value.flow in routes[active.value].proxy.udpTargets
        && webTx.activeTxSession.value.serverSock == routes[active.value].proxy.udpClients[activeKey.value.flow]
        && GetTarget() == routes[active.value].proxy.udpTargets[activeKey.value.flow]
        && GetTarget() == webTx.activeTxSession.value.serverSock.target
        && webTx.activeTxSession.value.serverSock.server == active.value
        && |webTx.activeTxSession.value.header| == 12 && webTx.activeTxSession.value.header[4..12] == sessionBytes.value
    {
      hide Allocated, OneSocket, WebTx.Valid, Endpoint.Valid, AllZero;
      if active.Some? { Serves(active.value); }
    }

    lemma FiredToOwner(live: map<Browser, Tx>, session: Option<TxSession>, wire: seq<Sent>, ws: Browser, id: nat,
                       threw: bool)
      requires Valid() && webTx.wire != wire && session.Some? && webTx.activeTxSession.Some?
      requires SameSession(session.value, webTx.activeTxSession.value)
      requires session.value.serverSock == webTx.activeTxSession.value.serverSock
      requires Fired(live, session, wire, ws, id, GetTarget(), threw,
                     webTx.webTxBySocket, webTx.activeTxSession, webTx.wire)
      ensures webTx.wire != [] && OnOwnersSocket(webTx.wire[|webTx.wire| - 1])
    {
      hide Allocated, Serving, OneSocket, WebTx.Valid, Coupled, Plus;
      SessionPointsAtTarget();
    }

    method PushToTalk(ws: Browser, com: int, monitorOnly: bool) returns (started: bool)
      requires Valid()
      modifies webTx
      ensures Valid() && webTx.wire == old(webTx.wire)
      ensures started == (webTx.enabled && (monitorOnly || sessionBytes.Some?))
      ensures !started ==> unchanged(webTx)
      ensures var tx := Tx(old(webTx.nextTx), if com == 2 then 2 else 1, monitorOnly, [], false);
        started ==> webTx.webTxBySocket == old(webTx.webTxBySocket)[ws := tx]
      ensures Extends(old(webTx.History()), webTx.History())
    {
      hide Allocated, OneSocket, WebTx.Valid, Endpoint.Valid, VoiceProxy.Valid, AllZero, Extends;
      hide Halted, OnlyOff, Taught, OffCall, LampCalls;
      webTx.FreshIdentity();
      started := webTx.Start(ws, com, monitorOnly);
      if started {
        SocketsAfterChange(webTx.wire, old(webTx.webTxBySocket), webTx.activeTxSession, ws, webTx.webTxBySocket[ws],
                           webTx.activeTxSession);
      }
    }

    method Release(ws: Browser)
      requires Valid()
      modifies webTx
      ensures Valid() && webTx.wire == old(webTx.wire) && webTx.webTxBySocket == old(webTx.webTxBySocket) - {ws}
      ensures Extends(old(webTx.History()), webTx.History())
    {
      hide Allocated, OneSocket, WebTx.Valid, Endpoint.Valid, VoiceProxy.Valid, AllZero, Extends;
      hide Halted, OnlyOff, Taught, OffCall, LampCalls;
      webTx.StopBrowser(ws, true);
      SocketsAfterStop(webTx.wire, old(webTx.webTxBySocket), webTx.activeTxSession, ws);
    }

    method EncoderEnded(ws: Browser, id: nat)
      requires Valid()
      modifies webTx
      ensures Valid() && webTx.wire == old(webTx.wire)
      ensures webTx.webTxBySocket ==
        if old(webTx.Owns(ws, id)) then old(webTx.webTxBySocket) - {ws} else old(webTx.webTxBySocket)
      ensures Extends(old(webTx.History()), webTx.History())
    {
      hide Allocated, OneSocket, WebTx.Valid, Endpoint.Valid, VoiceProxy.Valid, AllZero, Extends;
      hide Halted, OnlyOff, Taught, OffCall, LampCalls;
      webTx.EncoderExit(ws, id);
      SocketsAfterStop(webTx.wire, old(webTx.webTxBySocket), webTx.activeTxSession, ws);
    }

    method EncoderData(ws: Browser, id: nat, packets: seq<Packet>)
      requires Valid()
      modifies webTx
      ensures Valid() && webTx.wire == old(webTx.wire)
      ensures webTx.webTxBySocket ==
        if old(webTx.Owns(ws, id)) && !old(webTx.webTxBySocket)[ws].monitorOnly
        then old(webTx.webTxBySocket)[ws := Refilled(old(webTx.webTxBySocket)[ws], packets)]
        else old(webTx.webTxBySocket)
      ensures Extends(old(webTx.History()), webTx.History())
    {
      hide Allocated, OneSocket, WebTx.Valid, Endpoint.Valid, VoiceProxy.Valid, AllZero, Extends;
      hide Halted, OnlyOff, Taught, OffCall, LampCalls;
      webTx.EncoderOutput(ws, id, packets);
      if webTx.Owns(ws, id) {
        SocketsAfterChange(webTx.wire, old(webTx.webTxBySocket), webTx.activeTxSession, ws, webTx.webTxBySocket[ws],
                           webTx.activeTxSession);
        assert old(webTx.webTxBySocket)[ws := webTx.webTxBySocket[ws]] == webTx.webTxBySocket;
      }
    }

    /** From a login to a browser datagram: a login and a non-zero session setup on one flow make that flow the owner
        and Web TX ready; then what the encoder produces leaves on the owner's socket. */
    method FirstTransmission(host: string, flow: FlowKey, login: seq<byte>, setup: seq<byte>, ws: Browser,
                             speex: Packet)
      requires IsLogin(login) && |setup| >= 16 && IsSessionSetup(setup) && !AllZero(SessionBytes(setup))
      requires webTx.enabled && host in routes && Valid()
      modifies this`active, this`activeKey, this`activeTarget, this`sessionBytes, webTx, routes[host].proxy
      ensures Valid() && sessionBytes == Some(SessionBytes(setup))
      ensures active == Some(host) && activeKey == Some(ScopedKey(routes[host].address, flow))
      ensures |webTx.wire| == |old(webTx.wire)| + 1 && OnOwnersSocket(webTx.wire[|webTx.wire| - 1])
      ensures Extends(old(webTx.History()), webTx.History())
    {
      hide Valid, OnOwnersSocket, Extends;
      ghost var past := webTx.History();
      ExtendsItself(past);
      LogIn(host, flow, login, setup);
      ghost var mid := webTx.History();
      Talk(ws, speex);
      ExtendsOnward(past, mid, webTx.History());
    }

    method LogIn(host: string, flow: FlowKey, login: seq<byte>, setup: seq<byte>)
      requires IsLogin(login) && |setup| >= 16 && IsSessionSetup(setup) && !AllZero(SessionBytes(setup))
      requires host in routes && Valid()
      modifies this`active, this`activeKey, this`activeTarget, this`sessionBytes, webTx, routes[host].proxy
      ensures Valid() && sessionBytes == Some(SessionBytes(setup)) && webTx.wire == old(webTx.wire)
      ensures active == Some(host) && activeKey == Some(ScopedKey(routes[host].address, flow))
      ensures Extends(old(webTx.History()), webTx.History())
    {
      hide Valid, SessionAfter, Route, IsLogin, IsSessionSetup, AllZero, Extends;
      ghost var past := webTx.History();
      ExtendsItself(past);
      ghost var r := Current();
      UdpMessage(host, flow, login, true);
      ghost var key := ScopedKey(routes[host].address, flow);
      LoginOwns(r, host, key, routes[host].proxy.udpTargets[flow], login);
      r := Current();
      ghost var mid := webTx.History();
      UdpMessage(host, flow, setup, true);
      ExtendsOnward(past, mid, webTx.History());
      SetupTeaches(r, host, key, routes[host].proxy.udpTargets[flow], setup);
    }

    method Talk(ws: Browser, speex: Packet)
      requires webTx.enabled && sessionBytes.Some? && Valid()
      modifies webTx
      ensures Valid() && |webTx.wire| == |old(webTx.wire)| + 1 && OnOwnersSocket(webTx.wire[|webTx.wire| - 1])
      ensures Extends(old(webTx.History()), webTx.History())
    {
      hide Valid, OnOwnersSocket, Refilled, Extends;
      ghost var past := webTx.History();
      ExtendsItself(past);
      var id := webTx.nextTx;
      var started := PushToTalk(ws, 1, false);
      RefilledOnce(webTx.webTxBySocket[ws], speex);
      ghost var pressed := webTx.History();
      EncoderData(ws, id, [speex]);
      ghost var mid := webTx.History();
      ExtendsOnward(past, pressed, mid);
      PacingTimer(ws, id, false);
      ExtendsOnward(past, mid, webTx.History());
    }

    lemma IsReady()
      requires Valid()
      ensures Ready()
    {
      hide Ready, Owned;
    }

    lemma OwnerHasFlow()
      requires Valid() && active.Some?
      ensures active.value in routes && routes[active.value].proxy.udpClients != map[]
    {
      hide Ready;
    }

    lemma NobodyTalks()
      requires Valid() && active.None?
      ensures webTx.activeTxSession.None?
    {
      hide Ready;
    }

    lemma Distinct()
      requires Valid()
      ensures forall g, h :: g in routes && h in routes && g != h ==>
        routes[g] != routes[h] && routes[g].proxy != routes[h].proxy
    {
      hide Serving, OneSocket, WebTx.Valid, Owned;
    }

    lemma ProxiesDiffer()
      requires Allocated()
      ensures forall g, h :: g in routes && h in routes && g != h ==> routes[g].proxy != routes[h].proxy
    {}
  }

  lemma LoginOwns(r: Routing, host: string, key: ScopedKey, target: Target, packet: seq<byte>)
    requires IsLogin(packet)
    ensures Route(r, host, key, target, packet).routing == Routing(Some(host), Some(key), Some(target), None)
  {
    hide U16LE, IsSetup;
  }

  lemma SetupTeaches(r: Routing, host: string, key: ScopedKey, target: Target, packet: seq<byte>)
    requires |packet| >= 16 && IsSessionSetup(packet) && !AllZero(SessionBytes(packet))
    requires r.active == Some(host) && r.key == Some(key) && r.bytes.None?
    ensures Route(r, host, key, target, packet)
         == Routed(Routing(Some(host), Some(key), Some(target), Some(SessionBytes(packet))), true)
  {
    hide U16LE, AllZero;
  }

  lemma RefilledOnce(tx: Tx, speex: Packet)
    requires tx.queue == []
    ensures Refilled(tx, [speex]).queue != [] && Refilled(tx, [speex]).id == tx.id
    ensures !tx.monitorOnly ==> !Refilled(tx, [speex]).monitorOnly
  {
    assert |AllNormalized([speex])| == 1;
  }

  // One flow fewer on the route of the owner, but not the owner.
  lemma CoupledToFewer(r: Routing, address: string, clients: map<FlowKey, Socket>, targets: map<FlowKey, Target>,
                       fewerClients: map<FlowKey, Socket>, fewerTargets: map<FlowKey, Target>,
                       session: Option<TxSession>, flow: FlowKey)
    requires Coupled(r, address, clients, targets, session) && r.key != Some(ScopedKey(address, flow))
    requires (fewerClients == clients || fewerClients == clients - {flow})
    requires (fewerTargets == targets || fewerTargets == targets - {flow})
    ensures Coupled(r, address, fewerClients, fewerTargets, session)
  {}

  // More flows on the route of the owner.
  lemma CoupledToMore(r: Routing, address: string, clients: map<FlowKey, Socket>, targets: map<FlowKey, Target>,
                      moreClients: map<FlowKey, Socket>, moreTargets: map<FlowKey, Target>, session: Option<TxSession>)
    requires Coupled(r, address, clients, targets, session)
    requires forall k :: k in clients && k in targets ==>
      k in moreClients && k in moreTargets && moreClients[k] == clients[k] && moreTargets[k] == targets[k]
    ensures Coupled(r, address, moreClients, moreTargets, session)
  {}
}
