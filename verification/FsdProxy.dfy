/** The FSD proxy: socket pairs, the session counter they share, and the record stream of each pair. */
module FsdProxy {
  import opened Options
  import opened Bytes
  import opened FsdRecords
  import opened FsdStream
  import opened Selections
  import FsdLifecycle

  /** The lines of some records that are not blank, as they are handed to handleFsdLine. */
  function Lines(records: seq<Record>, blank: seq<byte> -> bool): (lines: seq<seq<byte>>)
    requires forall r :: r in records ==> |r| > 0
    decreases |records|
  {
    if records == [] then [] else
      var n := |records| - 1;
      assert records[n] in records;
      var line := records[n][..|records[n]| - 1];
      Lines(records[..n], blank) + if blank(line) then [] else [line]
  }

  /** The records without their line feeds. */
  function Stripped(records: seq<Record>): (lines: seq<seq<byte>>)
    requires forall r :: r in records ==> |r| > 0
  {
    seq(|records|, i requires 0 <= i < |records| => assert records[i] in records; records[i][..|records[i]| - 1])
  }

  /** Every line that is not blank is handed on, once, in order, and no other. */
  lemma {:induction false} LinesAreNotBlank(records: seq<Record>, blank: seq<byte> -> bool)
    requires forall r :: r in records ==> |r| > 0
    ensures Picks(Stripped(records), Lines(records, blank), line => !blank(line))
    decreases |records|
  {
    if records == [] {
      PicksNothing<seq<byte>>(line => !blank(line));
    } else {
      var n := |records| - 1;
      assert records[n] in records;
      LinesAreNotBlank(records[..n], blank);
      var line := records[n][..|records[n]| - 1];
      assert Stripped(records) == Stripped(records[..n]) + [line];
      PicksSnoc(Stripped(records[..n]), Lines(records[..n], blank), line, (line: seq<byte>) => !blank(line));
      assert Lines(records[..n], blank) + [] == Lines(records[..n], blank);
    }
  }

  ghost predicate AllRecords(records: seq<Record>) { forall r :: r in records ==> IsRecord(r) }

  /** The records are the first of the stream, and an outcome is the answer to the record's own request, except that an
      awaited one may have been settled. */
  ghost predicate Follows(received: seq<byte>, records: seq<Record>, outcomes: seq<Outcome>, endpoint: Oracle)
  {
    && |outcomes| == |records| && AllRecords(records) && records <= Records(received)
    && forall i :: 0 <= i < |records| ==> Settles(outcomes[i], Treat(records[i], i, endpoint))
  }

  predicate Settles(o: Outcome, answer: Outcome) { o == answer || (answer.Awaited? && !o.Plain?) }

  lemma FollowsMore(received: seq<byte>, more: seq<byte>, records: seq<Record>, outcomes: seq<Outcome>,
                    endpoint: Oracle)
    requires Follows(received, records, outcomes, endpoint)
    ensures Follows(received + more, records, outcomes, endpoint)
  {
    hide Records, Tail, Treat;
    TailOfAppend(received, more);
  }

  lemma FollowsPass(received: seq<byte>, records: seq<Record>, outcomes: seq<Outcome>, endpoint: Oracle,
                    pending: seq<byte>)
    requires Follows(received, records, outcomes, endpoint) && received == Flatten(records) + pending
    ensures var p := Drain(pending, |records|, endpoint);
      Follows(received, records + p.records, outcomes + p.outcomes, endpoint)
  {
    hide Records, Tail, Treat, Drain;
    var p := Drain(pending, |records|, endpoint);
    RecordsInFront(records, pending);
    DrainTakesRecords(pending, |records|, endpoint);
    DrainTreatsEach(pending, |records|, endpoint);
    FollowsJoin(records, outcomes, p.records, p.outcomes, endpoint);
    assert records + p.records <= records + Records(pending);
    assert forall r :: r in p.records ==> r in Records(pending);
  }

  lemma FollowsJoin(r1: seq<Record>, o1: seq<Outcome>, r2: seq<Record>, o2: seq<Outcome>, endpoint: Oracle)
    requires |r1| == |o1| && |r2| == |o2| && Treated(r2, o2, |r1|, endpoint)
    requires forall i :: 0 <= i < |r1| ==> Settles(o1[i], Treat(r1[i], i, endpoint))
    ensures forall i :: 0 <= i < |r1 + r2| ==> Settles((o1 + o2)[i], Treat((r1 + r2)[i], i, endpoint))
  {
    hide Treat;
    forall i | 0 <= i < |r1 + r2| ensures Settles((o1 + o2)[i], Treat((r1 + r2)[i], i, endpoint)) {
      if i >= |r1| { assert o2[i - |r1|] == Treat(r2[i - |r1|], |r1| + (i - |r1|), endpoint); }
    }
  }

  class FsdProxy {
    var activeSessionId: nat
    var confirmedIvaoSessionId: nat
    var fsdCoreSocket: Option<nat>
    var ivaoSocket: Option<nat>
    var connected: bool
    var confirmations: nat
    var reports: seq<bool>
    var accepted: nat

    function Life(): FsdLifecycle.Life
      reads this
    {
      FsdLifecycle.Life(activeSessionId, confirmedIvaoSessionId, fsdCoreSocket, ivaoSocket, connected, confirmations,
                        reports)
    }

    constructor ()
      ensures Life() == FsdLifecycle.START && accepted == 0
    {
      activeSessionId, confirmedIvaoSessionId := 0, 0;
      fsdCoreSocket, ivaoSocket := None, None;
      connected, confirmations, reports, accepted := false, 0, [], 0;
    }

    method Accept(endpoint: Oracle, blank: seq<byte> -> bool) returns (s: FsdSession)
      modifies this
      ensures Life() == FsdLifecycle.AfterAccept(old(Life()), old(accepted)) && accepted == old(accepted) + 1
      ensures fresh(s) && s.Valid() && s.Live() && s.id == activeSessionId && s.pair == old(accepted)
      ensures s.endpoint == endpoint && s.blank == blank && s.received == [] && !s.waitingForEndpoint
    {
      activeSessionId := activeSessionId + 1;
      s := new FsdSession(activeSessionId, accepted, endpoint, blank);
      fsdCoreSocket := Some(accepted);
      connected := true;
      accepted := accepted + 1;
    }

    method RemoteConnected(s: FsdSession)
      modifies this, s`remoteDestroyed
      ensures Life() == FsdLifecycle.AfterConnect(old(Life()), s.pair, s.id) && accepted == old(accepted)
      ensures s.remoteDestroyed == (old(s.remoteDestroyed) || s.id != old(activeSessionId))
    {
      if s.id != activeSessionId {
        s.remoteDestroyed := true;
        return;
      }
      ivaoSocket := Some(s.pair);
      confirmedIvaoSessionId := s.id;
      confirmations := confirmations + 1;
    }

    method Close(s: FsdSession)
      modifies this, s`coreDestroyed, s`remoteDestroyed
      ensures Life() == FsdLifecycle.AfterClose(old(Life()), s.id) && accepted == old(accepted)
      ensures s.coreDestroyed && s.remoteDestroyed
    {
      s.coreDestroyed := true;
      s.remoteDestroyed := true;
      if s.id != activeSessionId { return; }
      var wasConnected := confirmedIvaoSessionId == s.id;
      activeSessionId := 0;
      confirmedIvaoSessionId := 0;
      fsdCoreSocket := None;
      ivaoSocket := None;
      connected := false;
      reports := reports + [wasConnected];
    }
  }

  class FsdSession {
    const id: nat
    const pair: nat
    const endpoint: Oracle
    const blank: seq<byte> -> bool

    var remotePending: seq<byte>
    var waitingForEndpoint: bool
    var awaited: Record  // the VOICE reply whose promise is outstanding
    var coreDestroyed: bool
    var remoteDestroyed: bool
    var remotePaused: bool
    var coreBytes: seq<byte>  // written to the core socket
    var handled: seq<seq<byte>>  // handed to handleFsdLine
    var taken: nat  // records taken so far: numbers the endpoint requests

    // History: the bytes received, the records taken from them and what became of each.
    ghost var received: seq<byte>
    ghost var records: seq<Record>
    ghost var outcomes: seq<Outcome>
    ghost var skipped: bool  // data arrived while another session was active

    constructor (id: nat, pair: nat, endpoint: Oracle, blank: seq<byte> -> bool)
      ensures this.id == id && this.pair == pair && this.endpoint == endpoint && this.blank == blank
      ensures Valid() && Live() && received == [] && !waitingForEndpoint
    {
      this.id, this.pair, this.endpoint, this.blank := id, pair, endpoint, blank;
      remotePending, waitingForEndpoint, awaited := [], false, [];
      coreDestroyed, remoteDestroyed, remotePaused := false, false, false;
      coreBytes, handled, taken := [], [], 0;
      received, records, outcomes, skipped := [], [], [], false;
    }

    ghost predicate Open()
      reads this
    {
      !coreDestroyed && !remoteDestroyed
    }

    ghost predicate Live()
      reads this
    {
      Open() && !skipped
    }

    /** At each moment the core socket has received the rewrites of the first records of the stream, in order. */
    ghost predicate Faithful()
      reads `received, `taken, `records, `outcomes, `coreBytes, `handled
    {
      && Follows(received, records, outcomes, endpoint)
      && Consistent()
    }

    /** What has left the session is what the records and their outcomes say. */
    ghost predicate Consistent()
      reads `taken, `records, `outcomes, `coreBytes, `handled
    {
      && |outcomes| == |records| == taken && AllRecords(records)
      && coreBytes == Output(records, outcomes)
      && handled == Lines(records, blank)
    }

    /** While a promise is outstanding, the last record is the VOICE reply it belongs to. */
    ghost predicate InFlight()
      reads `waitingForEndpoint, `records, `outcomes, `awaited
    {
      waitingForEndpoint ==>
        && records != [] && |outcomes| == |records| && outcomes[|records| - 1].Awaited?
        && awaited == records[|records| - 1] && VoiceHost(awaited).Some?
    }

    /** While both sockets are open nothing is lost: what is not taken is pending. */
    ghost predicate Complete()
      reads this
    {
      Open() ==> received == Flatten(records) + remotePending && OnlyLastAwaited(outcomes, waitingForEndpoint)
    }

    /** While the session lives, what is pending is bounded. */
    ghost predicate Bounded()
      reads this
    {
      Live() ==>
        if waitingForEndpoint then |remotePending| <= MAX_PENDING
        else FirstLine(remotePending) == |remotePending| <= MAX_LINE
    }

    /** While the session lives, the remote socket is paused exactly while an endpoint is awaited. */
    ghost predicate Paused()
      reads this
    {
      Live() ==> remotePaused == waitingForEndpoint
    }

    ghost predicate Valid()
      reads this
    {
      Faithful() && InFlight() && Complete() && Bounded() && Paused()
    }

    /** At every moment, whatever chunks and promises there were. */
    lemma CoreSocketRelays()
      requires Valid()
      ensures records <= Records(received) && Relays(coreBytes, records, outcomes, endpoint)
    {
      hide InFlight, Complete, Bounded, Paused, Relays, Output, Lines;
      FaithfulRelays(received, records, outcomes, endpoint);
    }

    /** What has to hold when pending records are about to be treated. */
    ghost predicate Ready()
      reads this
    {
      Faithful() && Complete() && !waitingForEndpoint
    }

    /** DrainRecords, with what it keeps. */
    method DrainAndKeep(proxy: FsdProxy)
      requires Ready()
      modifies this, proxy
      ensures Faithful() && InFlight() && Complete() && (!old(Stopped(proxy)) ==> Bounded())
      ensures received == old(received)
      ensures old(Stopped(proxy)) ==>
        && proxy.Life() == old(proxy.Life()) && !Live() && waitingForEndpoint == old(waitingForEndpoint)
        && unchanged(this`records, this`outcomes, this`coreBytes, this`coreDestroyed, this`remoteDestroyed)
      ensures !old(Stopped(proxy)) ==>
        && After(Joined(old(records), old(outcomes), Drain(old(remotePending), old(taken), endpoint)))
        && (!coreDestroyed ==> !Stopped(proxy))
        && skipped == old(skipped) && remotePaused == (old(remotePaused) || waitingForEndpoint)
    {
      hide Follows, Drain, Joined, Records, Output, Lines, AllRecords;
      DrainRecords(proxy);
      if !old(Stopped(proxy)) {
        PassKeeps(received, old(records), old(outcomes), endpoint, old(remotePending));
      }
    }

    /** Bytes from IVAO. */
    method RemoteData(proxy: FsdProxy, data: seq<byte>)
      requires Valid()
      modifies this, proxy
      ensures Valid() && received == old(received) + data
      ensures !old(Stopped(proxy)) && !old(waitingForEndpoint) ==>
        After(Joined(old(records), old(outcomes), Drain(old(remotePending) + data, old(taken), endpoint)))
      ensures old(Stopped(proxy)) && !old(waitingForEndpoint) ==>
        && unchanged(this`records, this`outcomes, this`coreBytes, this`coreDestroyed, this`remoteDestroyed)
        && proxy.Life() == old(proxy.Life()) && !waitingForEndpoint
      ensures old(waitingForEndpoint) ==> unchanged(this`records, this`outcomes, this`coreBytes, this`handled)
      ensures !old(Stopped(proxy)) && !coreDestroyed ==> !Stopped(proxy)
    {
      hide Faithful, InFlight, Drain, Joined, Records, After, FirstLine;
      Receive(data);
      if waitingForEndpoint {
        if |remotePending| > MAX_PENDING { RejectOversizedLine(proxy); }
      } else {
        DrainAndKeep(proxy);
      }
    }

    method Receive(data: seq<byte>)
      requires Faithful() && Complete()
      modifies this`remotePending, this`received
      ensures Faithful() && Complete()
      ensures remotePending == old(remotePending) + data && received == old(received) + data
    {
      hide Follows, Output, Lines, AllRecords;
      assert [] + data == data;
      remotePending := if remotePending != [] then remotePending + data else data;
      received := received + data;
      FollowsMore(old(received), data, records, outcomes, endpoint);
      ConcatAssociates(Flatten(records), old(remotePending), data);
    }

    /** The promise of the awaited record resolves with an address, or is rejected. */
    method EndpointDone(proxy: FsdProxy, result: Option<seq<byte>>)
      requires Valid() && waitingForEndpoint
      modifies this, proxy
      ensures Valid() && received == old(received)
      ensures old(id != proxy.activeSessionId || coreDestroyed) ==>
        coreBytes == old(coreBytes) && proxy.Life() == old(proxy.Life())
      ensures !old(Stopped(proxy)) ==>
        var settled := if result.Some? then Sent(result.value) else Withheld;
        After(Joined(old(records), old(outcomes)[|old(records)| - 1 := settled],
          Drain(old(remotePending), old(taken), endpoint)))
    {
      hide Follows, Drain, Joined, Records, Output, Lines, AllRecords, VoiceHost, After, Rewrite, FirstLine;
      ghost var before := outcomes;
      var writes := result.Some? && id == proxy.activeSessionId && !coreDestroyed;
      var settled := if writes then Sent(result.value) else Withheld;
      Settle(settled);
      OnlyLastSettled(before, settled);
      waitingForEndpoint := false;
      DrainAndKeep(proxy);
      if !waitingForEndpoint && id == proxy.activeSessionId { remotePaused := false; }
    }

    /** One of the two sockets emits close. */
    method SocketClosed(proxy: FsdProxy)
      requires Valid()
      modifies this`coreDestroyed, this`remoteDestroyed, proxy
      ensures Valid() && coreDestroyed && remoteDestroyed
      ensures proxy.Life() == FsdLifecycle.AfterClose(old(proxy.Life()), id)
    {
      hide Faithful, InFlight;
      proxy.Close(this);
    }

    /** Records what became of the awaited record, and writes it when it has an address. */
    method Settle(o: Outcome)
      requires Faithful() && InFlight() && waitingForEndpoint && (o.Sent? || o.Withheld?)
      requires o.Sent? ==> !coreDestroyed
      modifies this`coreBytes, this`outcomes
      ensures Faithful() && outcomes == old(outcomes)[|records| - 1 := o]
      ensures coreBytes == old(coreBytes) + Written(awaited, o)
    {
      hide VoiceHost, Follows, Output, Lines, AllRecords, Rewrite;
      ghost var n := |records| - 1;
      assert coreBytes + [] == coreBytes;
      if o.Sent? { coreBytes := coreBytes + Rewrite(awaited, o.address); }
      outcomes := outcomes[n := o];
      SettleLast(received, records, old(outcomes), o, endpoint);
    }

    /** One complete record: hand it on, ask for the endpoint, write what can be written now. */
    method TakeRecord(proxy: FsdProxy, record: Record) returns (o: Outcome)
      requires IsRecord(record) && Consistent() && !coreDestroyed
      modifies this`coreBytes, this`handled, this`taken, this`records, this`outcomes, proxy`connected
      ensures Consistent() && o == Treat(record, old(|records|), endpoint)
      ensures Asked(record, old(|records|), endpoint, o)
      ensures old(coreBytes) <= coreBytes && StandsFor(coreBytes[|old(coreBytes)|..], record, o)
      ensures records == old(records) + [record] && outcomes == old(outcomes) + [o]
      ensures proxy.connected == (old(proxy.connected) || handled != old(handled))
    {
      hide Output, VoiceHost, Rewrite, Lines, IsRecord, AllRecords, Asked, StandsFor;
      TreatAsksForTheHost(record, taken, endpoint);
      WrittenStandsFor(record, taken, endpoint, Treat(record, taken, endpoint));
      LinesSnoc(records, record, blank);
      var line := record[..|record| - 1];
      if !blank(line) {
        proxy.connected := true;
        handled := handled + [line];
      }
      var host := VoiceHost(record);
      if host.None? {
        o := Plain;
      } else {
        match endpoint(taken, record[host.value.start..host.value.end])
        case Address(a) => o := Sent(a);
        case Later => o := Awaited;
        case Refused => o := Withheld;
      }
      OutputSnoc(records, outcomes, record, o);
      coreBytes := coreBytes + Written(record, o);
      taken := taken + 1;
      records := records + [record];
      outcomes := outcomes + [o];
    }

    /** Treats the pending records of the active session; what it does is one Drain pass. */
    method DrainRecords(proxy: FsdProxy)
      requires Consistent() && !waitingForEndpoint
      modifies this, proxy
      ensures Consistent() && received == old(received)
      ensures old(Stopped(proxy)) ==>
        && proxy.Life() == old(proxy.Life()) && proxy.accepted == old(proxy.accepted)
        && unchanged(this`remotePending, this`waitingForEndpoint, this`records, this`outcomes, this`coreBytes)
        && unchanged(this`coreDestroyed, this`remoteDestroyed, this`remotePaused)
        && skipped == (old(skipped) || (!coreDestroyed && !remoteDestroyed))
      ensures !old(Stopped(proxy)) ==>
        && skipped == old(skipped) && remotePaused == (old(remotePaused) || waitingForEndpoint)
        && After(Joined(old(records), old(outcomes), Drain(old(remotePending), old(taken), endpoint)))
        && (!coreDestroyed ==> !Stopped(proxy))
    {
      if id != proxy.activeSessionId || coreDestroyed || remoteDestroyed {
        skipped := skipped || (!coreDestroyed && !remoteDestroyed);
        return;
      }
      hide Consistent, Joined, Drain, After;
      DrainActive(proxy);
    }

    method DrainActive(proxy: FsdProxy)
      requires Consistent() && !waitingForEndpoint && !Stopped(proxy)
      modifies this`remotePending, this`waitingForEndpoint, this`awaited, this`coreDestroyed, this`remoteDestroyed
      modifies this`remotePaused, this`coreBytes, this`handled, this`taken, this`records, this`outcomes, proxy
      ensures Consistent()
      ensures After(Joined(old(records), old(outcomes), Drain(old(remotePending), old(taken), endpoint)))
      ensures !coreDestroyed ==> !Stopped(proxy)
      ensures remotePaused == (old(remotePaused) || waitingForEndpoint)
    {
      hide Drain, Joined, Treat, Output, Lines, IndexOf, IsRecord, FirstLine, AllRecords, Consistent, After;
      ghost var goal := Joined(records, outcomes, Drain(remotePending, taken, endpoint));
      var data := remotePending;
      var start := 0;
      var end := IndexOf(data, LF, start);
      assert data[0..] == data;
      while end < |data|
        invariant 0 <= start <= end <= |data| && end == IndexOf(data, LF, start)
        invariant Consistent() && goal == Joined(records, outcomes, Drain(data[start..], taken, endpoint))
        invariant !waitingForEndpoint && !Stopped(proxy) && remotePaused == old(remotePaused)
        decreases |data| - start
      {
        CountsAgree();
        DrainStep(records, outcomes, data, start, endpoint);
        if end - start > MAX_LINE { break; }
        var record := data[start..end + 1];
        var o := TakeRecord(proxy, record);
        CountsAgree();
        start := end + 1;
        if o.Awaited? {
          Await(proxy, record, data[start..]);
          return;
        }
        end := IndexOf(data, LF, start);
      }
      CountsAgree();
      DrainStep(records, outcomes, data, start, endpoint);
      Finish(proxy, data, start, end);
    }

    lemma CountsAgree()
      requires Consistent()
      ensures |records| == |outcomes| == taken
    {}

    /** Wait for the promise of the record just taken, unless too much is pending already. */
    method Await(proxy: FsdProxy, record: Record, rest: seq<byte>)
      requires |records| > 0 && record == records[|records| - 1] && !Stopped(proxy) && !waitingForEndpoint
      modifies this`remotePending, this`waitingForEndpoint, this`awaited, this`coreDestroyed, this`remoteDestroyed
      modifies this`remotePaused, proxy
      ensures After(
        if |rest| > MAX_PENDING then Pass(records, outcomes, TooBig, []) else Pass(records, outcomes, Waiting, rest))
      ensures !coreDestroyed ==> !Stopped(proxy)
      ensures remotePaused == (old(remotePaused) || waitingForEndpoint)
    {
      remotePending := rest;
      if |remotePending| > MAX_PENDING {
        RejectOversizedLine(proxy);
        return;
      }
      awaited := record;
      waitingForEndpoint := true;
      remotePaused := true;
    }

    method Finish(proxy: FsdProxy, data: seq<byte>, start: nat, end: nat)
      requires start <= end <= |data| && (end < |data| ==> end - start > MAX_LINE)
      requires !waitingForEndpoint && !Stopped(proxy)
      modifies this`remotePending, this`coreDestroyed, this`remoteDestroyed, proxy
      ensures After(
        if end - start > MAX_LINE then Pass(records, outcomes, TooLong, [])
        else Pass(records, outcomes, Idle, data[start..]))
      ensures !coreDestroyed ==> !Stopped(proxy)
    {
      if end - start > MAX_LINE {
        RejectOversizedLine(proxy);
        return;
      }
      remotePending := data[start..];
    }

    method RejectOversizedLine(proxy: FsdProxy)
      modifies this`remotePending, this`coreDestroyed, this`remoteDestroyed, proxy
      ensures remotePending == [] && coreDestroyed && remoteDestroyed
      ensures proxy.Life() == FsdLifecycle.AfterClose(old(proxy.Life()), id) && proxy.accepted == old(proxy.accepted)
    {
      remotePending := [];
      proxy.Close(this);
    }

    ghost predicate Stopped(proxy: FsdProxy)
      reads this, proxy
    {
      id != proxy.activeSessionId || coreDestroyed || remoteDestroyed
    }

    /** The state a pass leaves behind. */
    ghost predicate After(p: Pass)
      reads `records, `outcomes, `remotePending, `waitingForEndpoint, `awaited, `coreDestroyed, `remoteDestroyed
    {
      && records == p.records && outcomes == p.outcomes && remotePending == p.rest
      && waitingForEndpoint == p.end.Waiting?
      && (p.end.Waiting? ==> records != [] && awaited == records[|records| - 1])
      && coreDestroyed == remoteDestroyed == (p.end.TooLong? || p.end.TooBig?)
    }
  }

  /** With synchronous endpoints, a session that receives b in any chunks has written the rewrites of exactly the
      records in front of the first line over 64 KiB, and is closed exactly if there is such a line. */
  method ReceiveChunks(proxy: FsdProxy, s: FsdSession, chunks: seq<seq<byte>>)
    requires s.Valid() && s.received == [] && s.remotePending == [] && !s.waitingForEndpoint && !s.Stopped(proxy)
    requires Synchronous(s.endpoint)
    modifies proxy, s
    ensures s.Valid()
    ensures s.coreBytes == Output(Accepted(Flatten(chunks)), Answers(Accepted(Flatten(chunks)), s.endpoint))
    ensures s.records == Accepted(Flatten(chunks))
    ensures s.coreDestroyed <==> Overflows(Flatten(chunks))
  {
    hide Drain, Records, FirstLine, Output, Answers, Accepted, Overflows, Tail, Lines, AllRecords, FsdSession.InFlight;
    hide FsdSession.Bounded, FsdSession.Complete, FsdSession.Paused;
    assert s.records == [] by { NothingReceived(s.received, s.records, s.outcomes, s.endpoint); }
    var i := 0;
    while i < |chunks|
      invariant 0 <= i <= |chunks| && s.Valid() && !s.waitingForEndpoint
      invariant s.coreDestroyed || !s.Stopped(proxy)
      invariant var d := DeliverAll(chunks[..i], s.endpoint);
        && s.records == d.records && s.outcomes == d.outcomes && s.coreDestroyed == d.closed
        && (!d.closed ==> s.remotePending == d.pending)
    {
      assert chunks[..i + 1][..i] == chunks[..i];
      DrainNeverWaits(s.remotePending + chunks[i], s.taken, s.endpoint);
      s.RemoteData(proxy, chunks[i]);
      i := i + 1;
    }
    assert chunks[..i] == chunks;
    ChunksDoNotMatter(chunks, s.endpoint);
  }

  /** Records that are not VOICE replies reach the core socket byte for byte: without VOICE replies what was written
      is a prefix of what was received. */
  lemma {:induction false} OtherTrafficIsUnchanged(received: seq<byte>, records: seq<Record>, outcomes: seq<Outcome>,
                                                   endpoint: Oracle)
    requires Follows(received, records, outcomes, endpoint)
    requires forall r :: r in records ==> VoiceHost(r).None?
    ensures Output(records, outcomes) == Flatten(records) <= received
  {
    OutputOfPlain(records, outcomes, endpoint);
    var rest := Records(received)[|records|..];
    assert Records(received) == records + rest;
    FlattenAppend(records, rest);
    RecordsLoseNothing(received);
    ConcatAssociates(Flatten(records), Flatten(rest), Tail(received));
  }

  lemma {:induction false} OutputOfPlain(records: seq<Record>, outcomes: seq<Outcome>, endpoint: Oracle)
    requires |outcomes| == |records| && forall r :: r in records ==> VoiceHost(r).None?
    requires forall i :: 0 <= i < |records| ==> Settles(outcomes[i], Treat(records[i], i, endpoint))
    ensures Output(records, outcomes) == Flatten(records)
    decreases |records|
  {
    hide VoiceHost;
    if records != [] {
      var n := |records| - 1;
      assert records[n] in records && Settles(outcomes[n], Treat(records[n], n, endpoint));
      assert records == records[..n] + [records[n]];
      OutputOfPlain(records[..n], outcomes[..n], endpoint);
      FlattenSnoc(records[..n], records[n]);
    }
  }

  /** Record by record: what the core socket has received stands for the records, in order. A VOICE reply has the
      address that was given for its own host, or the one that its promise brought. */
  ghost predicate Relays(coreBytes: seq<byte>, records: seq<Record>, outcomes: seq<Outcome>, endpoint: Oracle)
  {
    && |outcomes| == |records|
    && exists parts: seq<seq<byte>> ::
      && |parts| == |records| && coreBytes == Flatten(parts)
      && (forall i :: 0 <= i < |records| ==> StandsFor(parts[i], records[i], outcomes[i]))
      && (forall i :: 0 <= i < |records| ==> Given(records[i], i, endpoint, outcomes[i]))
  }

  ghost predicate Given(r: Record, k: nat, endpoint: Oracle, o: Outcome)
  {
    Asked(r, k, endpoint, o) || (Asked(r, k, endpoint, Awaited) && IsVoiceReply(r) && !o.Plain?)
  }

  function Parts(records: seq<Record>, outcomes: seq<Outcome>): (parts: seq<seq<byte>>)
    requires |records| == |outcomes|
  {
    seq(|records|, i requires 0 <= i < |records| => Written(records[i], outcomes[i]))
  }

  lemma {:induction false} OutputIsParts(records: seq<Record>, outcomes: seq<Outcome>)
    requires |records| == |outcomes|
    ensures Output(records, outcomes) == Flatten(Parts(records, outcomes))
    decreases |records|
  {
    hide Written;
    if records != [] {
      var n := |records| - 1;
      OutputIsParts(records[..n], outcomes[..n]);
      assert Parts(records, outcomes) == Parts(records[..n], outcomes[..n]) + [Written(records[n], outcomes[n])];
      FlattenSnoc(Parts(records[..n], outcomes[..n]), Written(records[n], outcomes[n]));
    }
  }

  lemma SettledStandsFor(r: Record, k: nat, endpoint: Oracle, o: Outcome)
    requires IsRecord(r) && Settles(o, Treat(r, k, endpoint))
    ensures StandsFor(Written(r, o), r, o) && Given(r, k, endpoint, o)
  {
    hide VoiceHost, VoiceReply, VoicePrefix, Rewrite;
    TreatAsksForTheHost(r, k, endpoint);
    VoiceReplyHasHost(r);
    if o == Treat(r, k, endpoint) {
      hide StandsFor, Asked;
      WrittenStandsFor(r, k, endpoint, o);
    } else {
      forall server, client, station, host, rest | VoiceReply(r, server, client, station, host, rest)
        ensures o.Sent? ==> Written(r, o) == VoicePrefix(server, client, station) + o.address + rest
      {
        if o.Sent? { RewriteReplacesTheHost(r, o.address, server, client, station, host, rest); }
      }
    }
  }

  lemma FaithfulRelays(received: seq<byte>, records: seq<Record>, outcomes: seq<Outcome>, endpoint: Oracle)
    requires Follows(received, records, outcomes, endpoint)
    ensures Relays(Output(records, outcomes), records, outcomes, endpoint)
  {
    hide Settles, Treat, Written, StandsFor, Given, IsRecord, Records;
    OutputIsParts(records, outcomes);
    var parts := Parts(records, outcomes);
    forall i | 0 <= i < |records|
      ensures StandsFor(parts[i], records[i], outcomes[i]) && Given(records[i], i, endpoint, outcomes[i])
    {
      assert records[i] in records;
      SettledStandsFor(records[i], i, endpoint, outcomes[i]);
    }
  }

  lemma NothingReceived(received: seq<byte>, records: seq<Record>, outcomes: seq<Outcome>, endpoint: Oracle)
    requires received == [] && Follows(received, records, outcomes, endpoint)
    ensures records == []
  {}

  lemma OnlyLastSettled(outcomes: seq<Outcome>, o: Outcome)
    requires outcomes != [] && !o.Awaited?
    ensures OnlyLastAwaited(outcomes, true) ==> OnlyLastAwaited(outcomes[|outcomes| - 1 := o], false)
  {}

  lemma SettleLast(received: seq<byte>, records: seq<Record>, outcomes: seq<Outcome>, o: Outcome, endpoint: Oracle)
    requires Follows(received, records, outcomes, endpoint) && records != [] && outcomes[|records| - 1].Awaited?
    requires !o.Plain?
    ensures var n := |records| - 1;
      && Follows(received, records, outcomes[n := o], endpoint)
      && Output(records, outcomes[n := o]) == Output(records, outcomes) + Written(records[n], o)
  {
    hide Treat, Records, Rewrite;
    var n := |records| - 1;
    assert outcomes[n := o][..n] == outcomes[..n];
    assert Output(records, outcomes) == Output(records[..n], outcomes[..n]) + [];
  }

  lemma PassKeeps(received: seq<byte>, records: seq<Record>, outcomes: seq<Outcome>, endpoint: Oracle,
                  pending: seq<byte>)
    requires Follows(received, records, outcomes, endpoint) && received == Flatten(records) + pending
    requires OnlyLastAwaited(outcomes, false)
    ensures var q := Drain(pending, |records|, endpoint);
      var p := Joined(records, outcomes, q);
      && Follows(received, p.records, p.outcomes, endpoint)
      && (p.end.Waiting? ==>
        p.records != [] && p.outcomes[|p.records| - 1].Awaited? && VoiceHost(p.records[|p.records| - 1]).Some?)
      && (p.end.Idle? || p.end.Waiting? ==>
        received == Flatten(p.records) + p.rest && OnlyLastAwaited(p.outcomes, p.end.Waiting?))
      && (p.end.Waiting? ==> |p.rest| <= MAX_PENDING)
      && (p.end.Idle? ==> FirstLine(p.rest) == |p.rest| <= MAX_LINE)
  {
    hide Drain, Treat, Records;
    var q := Drain(pending, |records|, endpoint);
    FollowsPass(received, records, outcomes, endpoint, pending);
    DrainTreatsEach(pending, |records|, endpoint);
    DrainKeepsTheRest(pending, |records|, endpoint);
    DrainRestIsBounded(pending, |records|, endpoint);
    FlattenAppend(records, q.records);
    ConcatAssociates(Flatten(records), Flatten(q.records), q.rest);
    AwaitedIsVoice(q.records, q.outcomes, |records|, endpoint);
  }

  lemma DrainRestIsBounded(pending: seq<byte>, k: nat, endpoint: Oracle)
    ensures var p := Drain(pending, k, endpoint);
      p.end.Idle? ==> FirstLine(p.rest) == |p.rest| <= MAX_LINE
  {
    hide Drain;
    DrainIsExhaustive(pending, k, endpoint);
    AcceptedIsAll(pending);
  }

  lemma AwaitedIsVoice(records: seq<Record>, outcomes: seq<Outcome>, k: nat, endpoint: Oracle)
    requires |records| == |outcomes| && Treated(records, outcomes, k, endpoint)
    ensures records != [] && outcomes[|records| - 1].Awaited? ==> VoiceHost(records[|records| - 1]).Some?
  {}

  /** A pass that continues earlier ones. */
  function Joined(records: seq<Record>, outcomes: seq<Outcome>, p: Pass): (r: Pass)
  {
    Pass(records + p.records, outcomes + p.outcomes, p.end, p.rest)
  }

  lemma FirstLineFrom(data: seq<byte>, start: nat)
    requires start <= |data|
    ensures IndexOf(data, LF, start) == start + FirstLine(data[start..])
  {
    var i, j := IndexOf(data, LF, start), FirstLine(data[start..]);
    if i < |data| { assert data[start..][i - start] == LF; }
    if j < |data| - start { assert data[start + j] == LF; }
  }

  lemma DrainStep(records: seq<Record>, outcomes: seq<Outcome>, data: seq<byte>, start: nat, endpoint: Oracle)
    requires start <= |data| && |outcomes| == |records|
    ensures var end := IndexOf(data, LF, start);
      var goal := Joined(records, outcomes, Drain(data[start..], |records|, endpoint));
      if end - start > MAX_LINE then goal == Pass(records, outcomes, TooLong, [])
      else if end == |data| then goal == Pass(records, outcomes, Idle, data[start..])
      else
        var r, rest := data[start..end + 1], data[end + 1..];
        var o := Treat(r, |records|, endpoint);
        IsRecord(r) &&
        if !o.Awaited? then goal == Joined(records + [r], outcomes + [o], Drain(rest, |records| + 1, endpoint))
        else if |rest| > MAX_PENDING then goal == Pass(records + [r], outcomes + [o], TooBig, [])
        else goal == Pass(records + [r], outcomes + [o], Waiting, rest)
  {
    hide Treat, FirstLine, IndexOf, Drain, IsRecord;
    FirstLineFrom(data, start);
    assert records + [] == records && outcomes + [] == outcomes;
    var end := IndexOf(data, LF, start);
    var b := data[start..];
    DrainFirst(b, |records|, endpoint);
    if end < |data| && end - start <= MAX_LINE {
      var r, rest := data[start..end + 1], data[end + 1..];
      assert b[..FirstLine(b) + 1] == r && b[FirstLine(b) + 1..] == rest;
      var p := Drain(rest, |records| + 1, endpoint);
      ConcatAssociates(records, [r], p.records);
      ConcatAssociates(outcomes, [Treat(r, |records|, endpoint)], p.outcomes);
    }
  }

  // What a pass does first.
  lemma DrainFirst(b: seq<byte>, k: nat, endpoint: Oracle)
    ensures var i, all := FirstLine(b), Drain(b, k, endpoint);
      if i > MAX_LINE then all == Pass([], [], TooLong, [])
      else if i == |b| then all == Pass([], [], Idle, b)
      else
        var r, rest := b[..i + 1], b[i + 1..];
        var o, p := Treat(r, k, endpoint), Drain(rest, k + 1, endpoint);
        && IsRecord(r)
        && all == if !o.Awaited? then Pass([r] + p.records, [o] + p.outcomes, p.end, p.rest)
                  else if |rest| > MAX_PENDING then Pass([r], [o], TooBig, [])
                  else Pass([r], [o], Waiting, rest)
  {
    hide Treat, FirstLine;
    if FirstLine(b) < |b| { FirstLineOfPrefix(b, FirstLine(b) + 1); }
  }

  lemma LinesSnoc(records: seq<Record>, r: Record, blank: seq<byte> -> bool)
    requires AllRecords(records) && IsRecord(r)
    ensures |r| > 0
    ensures AllRecords(records + [r])
    ensures Lines(records + [r], blank) == Lines(records, blank) + if blank(r[..|r| - 1]) then [] else [r[..|r| - 1]]
  {
    assert (records + [r])[..|records|] == records;
    forall x | x in records + [r] ensures IsRecord(x) {}
  }
}
