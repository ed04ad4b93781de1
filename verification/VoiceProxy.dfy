/** The TS2 voice proxy of one server: which address it forwards to, and the UDP flow of each local source port. */
module VoiceProxy {
  import opened Options
  import opened Bytes
  import opened Text

  type FlowKey = string  // "address:port" of the local source
  datatype Target = Target(host: string, port: nat)

  /** A UDP socket to the server. The serial number is its identity; the server and the target are those at the time it
      was created. */
  datatype Socket = Socket(serial: nat, server: string, target: Target)
  datatype Datagram = Datagram(socket: Socket, target: Target, bytes: seq<byte>)

  /** An address that was the first of a DNS answer. */
  datatype Answer = Answer(generation: nat, server: string, ip: string)

  /** A socket points at its server by name, or at an address that DNS gave for that name. */
  ghost predicate PointsAt(s: Socket, port: nat, answers: set<Answer>)
  {
    && s.target.port == port
    && (s.target.host == s.server || exists a :: a in answers && a.server == s.server && a.ip == s.target.host)
  }

  class VoiceProxy {
    const port: nat
    var realServer: string
    var realIp: Option<string>
    var dnsGeneration: nat
    var udpClients: map<FlowKey, Socket>
    var udpTargets: map<FlowKey, Target>
    var created: nat  // sockets created so far
    var forwarded: seq<Datagram>  // sent to the server

    ghost var requests: seq<string>  // the name asked for by each DNS request, oldest first
    ghost var answers: set<Answer>  // all answers that arrived with an address
    ghost var source: nat  // the request that gave realIp

    /** The cached address answers a request for the current server. */
    ghost predicate Resolved()
      reads `realServer, `realIp, `dnsGeneration, `requests, `answers, `source
    {
      && |requests| == dnsGeneration > 0 && requests[dnsGeneration - 1] == realServer
      && (realIp.Some? ==>
        && 0 < source <= dnsGeneration && requests[source - 1] == realServer
        && Answer(source, realServer, realIp.value) in answers)
      && (forall a :: a in answers ==> 0 < a.generation <= dnsGeneration && requests[a.generation - 1] == a.server)
    }

    /** Every flow has a socket and a target, the target is the one its socket was created for, and sockets differ. */
    ghost predicate Flows()
      reads `udpClients, `udpTargets, `created, `answers
    {
      && udpClients.Keys == udpTargets.Keys
      && (forall k :: k in udpClients ==>
        && udpTargets[k] == udpClients[k].target && udpClients[k].serial < created
        && PointsAt(udpClients[k], port, answers))
      && (forall k, l :: k in udpClients && l in udpClients && k != l ==> udpClients[k].serial != udpClients[l].serial)
    }

    /** Whatever was forwarded left on its socket to the target of that socket. */
    ghost predicate Forwarded()
      reads `forwarded, `created, `answers
    {
      forall d :: d in forwarded ==>
        d.target == d.socket.target && d.socket.serial < created && PointsAt(d.socket, port, answers)
    }

    ghost predicate Valid()
      reads this
    {
      Resolved() && Flows() && Forwarded()
    }

    constructor (server: string, port: nat)
      ensures Valid() && this.port == port && realServer == server && realIp == None
      ensures udpClients == map[] && created == 0 && forwarded == [] && dnsGeneration == 1
    {
      this.port := port;
      realServer, realIp, dnsGeneration := server, None, 1;
      udpClients, udpTargets, created, forwarded := map[], map[], 0, [];
      requests, answers, source := [server], {}, 0;
    }

    method ResolveServer()
      requires Flows() && Forwarded() && |requests| == dnsGeneration
      requires realIp.Some? ==>
        && 0 < source <= dnsGeneration && requests[source - 1] == realServer
        && Answer(source, realServer, realIp.value) in answers
      requires forall a :: a in answers ==> 0 < a.generation <= dnsGeneration && requests[a.generation - 1] == a.server
      modifies `dnsGeneration, `requests
      ensures Valid() && dnsGeneration == old(dnsGeneration) + 1 && requests == old(requests) + [realServer]
    {
      dnsGeneration := dnsGeneration + 1;
      requests := requests + [realServer];
    }

    method SetServer(server: string)
      requires Valid()
      modifies `realServer, `realIp, `dnsGeneration, `requests
      ensures Valid()
      ensures Trim(server) == "" ==> unchanged(this)
      ensures Trim(server) != "" ==> realServer == Trim(server) && dnsGeneration == old(dnsGeneration) + 1
      ensures Trim(server) != "" ==> realIp == if Trim(server) == old(realServer) then old(realIp) else None
    {
      var next := Trim(server);
      if next == "" { return; }
      if next != realServer {
        realServer := next;
        realIp := None;
      }
      ResolveServer();
    }

    /** The answer to the DNS request with the given generation; answers may come in any order. */
    method DnsAnswer(generation: nat, addresses: Option<seq<string>>)
      requires Valid() && 0 < generation <= dnsGeneration
      modifies `realIp, `answers, `source
      ensures Valid() && old(answers) <= answers
      ensures realIp ==
        if generation == dnsGeneration && addresses.Some? && addresses.value != [] && addresses.value[0] != ""
        then Some(addresses.value[0]) else old(realIp)
      ensures realIp != old(realIp) ==> requests[generation - 1] == realServer && generation == dnsGeneration
    {
      if addresses.Some? && addresses.value != [] {
        answers := answers + {Answer(generation, requests[generation - 1], addresses.value[0])};
      }
      if generation != dnsGeneration { return; }
      if addresses.Some? && addresses.value != [] && addresses.value[0] != "" {
        realIp := Some(addresses.value[0]);
        source := generation;
      }
    }

    function GetTarget(): (t: Target)
      reads `realServer, `realIp
    {
      Target(if realIp.Some? && realIp.value != "" then realIp.value else realServer, port)
    }

    /** The flow of a local source, created when it has none. */
    method OpenFlow(key: FlowKey) returns (remote: Socket, target: Target)
      requires Valid()
      modifies `udpClients, `udpTargets, `created
      ensures Valid() && key in udpClients && udpClients[key] == remote && key in udpTargets
      ensures udpTargets[key] == target
      ensures key in old(udpClients) ==> unchanged(this)
      ensures key !in old(udpClients) ==>
        && target.port == port && remote.server == realServer
        && target.host == if realIp.Some? && realIp.value != "" then realIp.value else realServer
      ensures key !in old(udpClients) ==>
        && udpClients == old(udpClients)[key := remote] && remote == Socket(old(created), realServer, GetTarget())
        && udpTargets == old(udpTargets)[key := target] && key !in old(udpTargets)
    {
      if key !in udpClients {
        target := GetTarget();
        remote := Socket(created, realServer, target);
        created := created + 1;
        udpClients := udpClients[key := remote];
        udpTargets := udpTargets[key := target];
      }
      remote := udpClients[key];
      target := udpTargets[key];
    }

    method Forward(remote: Socket, target: Target, bytes: seq<byte>)
      requires Valid() && remote.serial < created && target == remote.target && PointsAt(remote, port, answers)
      modifies `forwarded
      ensures Valid() && forwarded == old(forwarded) + [Datagram(remote, target, bytes)]
    {
      forwarded := forwarded + [Datagram(remote, target, bytes)];
    }

    /** A socket closed or failed. Only the socket that the flow uses now can end the flow. */
    method CleanupUdpClient(key: FlowKey, remote: Socket) returns (ended: bool)
      requires Valid()
      modifies `udpClients, `udpTargets
      ensures Valid() && ended == (key in old(udpClients) && old(udpClients)[key] == remote)
      ensures udpClients == if ended then old(udpClients) - {key} else old(udpClients)
      ensures udpTargets == if ended then old(udpTargets) - {key} else old(udpTargets)
    {
      if key !in udpClients || udpClients[key] != remote { return false; }
      udpClients := udpClients - {key};
      udpTargets := udpTargets - {key};
      ended := true;
    }
  }
}
