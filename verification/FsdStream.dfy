/** The incoming FSD stream: records are rewritten one at a time, while the address of a voice server may still be on
    its way. */
module FsdStream {
  import opened Options
  import opened Bytes
  import opened FsdRecords

  /** What getVoiceEndpoint does: return an address, return a promise, or throw. */
  datatype Endpoint = Address(address: seq<byte>) | Later | Refused

  /** The answer to the request made for the k-th record of a session. */
  type Oracle = (nat, seq<byte>) -> Endpoint

  /** What became of a record. */
  datatype Outcome = Plain | Sent(address: seq<byte>) | Withheld | Awaited

  function Treat(r: Record, k: nat, endpoint: Oracle): (o: Outcome)
  {
    var host := VoiceHost(r);
    if host.None? then Plain else
      match endpoint(k, r[host.value.start..host.value.end])
      case Address(a) => Sent(a)
      case Later => Awaited
      case Refused => Withheld
  }

  function Written(r: Record, o: Outcome): (b: seq<byte>)
  {
    match o
    case Plain => r
    case Sent(a) => Rewrite(r, a)
    case Withheld => []
    case Awaited => []
  }

  /** What the core socket receives for some records. */
  function Output(records: seq<Record>, outcomes: seq<Outcome>): (b: seq<byte>)
    requires |records| == |outcomes|
    decreases |records|
  {
    if records == [] then [] else
      var n := |records| - 1;
      Output(records[..n], outcomes[..n]) + Written(records[n], outcomes[n])
  }

  lemma OutputSnoc(records: seq<Record>, outcomes: seq<Outcome>, r: Record, o: Outcome)
    requires |records| == |outcomes|
    ensures Output(records + [r], outcomes + [o]) == Output(records, outcomes) + Written(r, o)
  {
    assert (records + [r])[..|records|] == records && (outcomes + [o])[..|outcomes|] == outcomes;
  }

  lemma {:induction false} OutputAppend(r1: seq<Record>, o1: seq<Outcome>, r2: seq<Record>, o2: seq<Outcome>)
    requires |r1| == |o1| && |r2| == |o2|
    ensures Output(r1 + r2, o1 + o2) == Output(r1, o1) + Output(r2, o2)
    decreases |r2|
  {
    hide Written;
    if r2 == [] {
      assert r1 + r2 == r1 && o1 + o2 == o1;
    } else {
      var n := |r2| - 1;
      OutputAppend(r1, o1, r2[..n], o2[..n]);
      OutputSnoc(r1 + r2[..n], o1 + o2[..n], r2[n], o2[n]);
      assert r1 + r2 == r1 + r2[..n] + [r2[n]] && o1 + o2 == o1 + o2[..n] + [o2[n]];
      ConcatAssociates(Output(r1, o1), Output(r2[..n], o2[..n]), Written(r2[n], o2[n]));
    }
  }

  // ---------------------------------------------------------------------------
  // What is asked and what is written, record by record
  // ---------------------------------------------------------------------------

  ghost predicate IsVoiceReply(r: Record)
  {
    exists server, client, station, host, rest :: VoiceReply(r, server, client, station, host, rest)
  }

  /** The k-th record was treated as the answer for its host says; a record that is no VOICE reply asks for nothing. */
  ghost predicate Asked(r: Record, k: nat, endpoint: Oracle, o: Outcome)
  {
    && (forall server, client, station, host, rest :: VoiceReply(r, server, client, station, host, rest) ==>
      AnswersFor(host, k, endpoint, o))
    && (!IsVoiceReply(r) ==> o == Plain)
  }

  ghost predicate AnswersFor(host: seq<byte>, k: nat, endpoint: Oracle, o: Outcome)
  {
    && (forall a :: o == Sent(a) <==> endpoint(k, host) == Address(a))
    && (o == Awaited <==> endpoint(k, host) == Later)
    && (o == Withheld <==> endpoint(k, host) == Refused)
  }

  /** What stands for a record on the core socket: a VOICE reply with its host replaced by the address, nothing while or
      because there is none, and any other record byte for byte. */
  ghost predicate StandsFor(b: seq<byte>, r: Record, o: Outcome)
  {
    && (forall server, client, station, host, rest :: VoiceReply(r, server, client, station, host, rest) ==>
      match o
      case Sent(a) => b == VoicePrefix(server, client, station) + a + rest
      case Withheld => b == []
      case Awaited => b == []
      case Plain => false)
    && (!IsVoiceReply(r) ==> b == r)
  }

  lemma VoiceReplyHasHost(r: Record)
    ensures IsVoiceReply(r) <==> VoiceHost(r).Some?
    ensures forall server, client, station, host, rest :: VoiceReply(r, server, client, station, host, rest) ==>
      VoiceHost(r).Some? && r[VoiceHost(r).value.start..VoiceHost(r).value.end] == host
  {
    hide VoiceHost, VoiceReply;
    forall server, client, station, host, rest | VoiceReply(r, server, client, station, host, rest)
      ensures VoiceHost(r).Some? && r[VoiceHost(r).value.start..VoiceHost(r).value.end] == host
    {
      VoiceReplyIsFound(r, server, client, station, host, rest);
      HostInside(r, server, client, station, host, rest);
    }
    if VoiceHost(r).Some? {
      var server, client, station := VoiceHostIsReply(r);
    }
  }

  lemma HostInside(r: Record, server: seq<byte>, client: seq<byte>, station: seq<byte>, host: seq<byte>,
                   rest: seq<byte>)
    requires VoiceReply(r, server, client, station, host, rest)
    ensures var n := |VoicePrefix(server, client, station)|;
      n + |host| <= |r| && r[n..n + |host|] == host
  {
    hide VoicePrefix, Field, Host;
  }

  /** The endpoint is asked for the host of the reply, and its answer decides. */
  lemma TreatAsksForTheHost(r: Record, k: nat, endpoint: Oracle)
    ensures Asked(r, k, endpoint, Treat(r, k, endpoint))
  {
    hide VoiceHost, VoiceReply;
    VoiceReplyHasHost(r);
  }

  lemma WrittenStandsFor(r: Record, k: nat, endpoint: Oracle, o: Outcome)
    requires IsRecord(r) && Asked(r, k, endpoint, o)
    ensures StandsFor(Written(r, o), r, o)
  {
    hide VoiceHost, VoiceReply, VoicePrefix;
    VoiceReplyHasHost(r);
    forall server, client, station, host, rest | VoiceReply(r, server, client, station, host, rest)
      ensures o.Sent? ==> Written(r, o) == VoicePrefix(server, client, station) + o.address + rest
      ensures !o.Plain?
    {
      assert AnswersFor(host, k, endpoint, o);
      if o.Sent? { RewriteReplacesTheHost(r, o.address, server, client, station, host, rest); }
    }
  }

  // ---------------------------------------------------------------------------
  // One pass over the pending bytes
  // ---------------------------------------------------------------------------

  datatype End = Idle | Waiting | TooLong | TooBig
  datatype Pass = Pass(records: seq<Record>, outcomes: seq<Outcome>, end: End, rest: seq<byte>)

  /** drainRecords: treat complete records until none is left, one has to be waited for, or a bound is broken. */
  function Drain(pending: seq<byte>, k: nat, endpoint: Oracle): (p: Pass)
    ensures |p.records| == |p.outcomes|
    decreases |pending|
  {
    var i := FirstLine(pending);
    if i > MAX_LINE then Pass([], [], TooLong, [])
    else if i == |pending| then Pass([], [], Idle, pending)
    else
      var r, rest := pending[..i + 1], pending[i + 1..];
      var o := Treat(r, k, endpoint);
      if o.Awaited? then
        if |rest| > MAX_PENDING then Pass([r], [o], TooBig, []) else Pass([r], [o], Waiting, rest)
      else
        var p := Drain(rest, k + 1, endpoint);
        Pass([r] + p.records, [o] + p.outcomes, p.end, p.rest)
  }

  ghost predicate Treated(records: seq<Record>, outcomes: seq<Outcome>, k: nat, endpoint: Oracle)
    requires |records| == |outcomes|
  {
    forall i :: 0 <= i < |records| ==> outcomes[i] == Treat(records[i], k + i, endpoint)
  }

  /** A pass takes complete records off the front, in order. */
  lemma {:induction false} DrainTakesRecords(pending: seq<byte>, k: nat, endpoint: Oracle)
    ensures Drain(pending, k, endpoint).records <= Records(pending)
    decreases |pending|
  {
    hide Treat, FirstLine;
    var i := FirstLine(pending);
    if i < |pending| && i <= MAX_LINE {
      DrainTakesRecords(pending[i + 1..], k + 1, endpoint);
    }
  }

  lemma TreatedCons(r: Record, o: Outcome, records: seq<Record>, outcomes: seq<Outcome>, k: nat, endpoint: Oracle)
    requires |records| == |outcomes| && o == Treat(r, k, endpoint) && Treated(records, outcomes, k + 1, endpoint)
    ensures Treated([r] + records, [o] + outcomes, k, endpoint)
  {
    hide Treat;
    forall i | 0 <= i < |records| + 1 ensures ([o] + outcomes)[i] == Treat(([r] + records)[i], k + i, endpoint) {
      if i > 0 { assert outcomes[i - 1] == Treat(records[i - 1], k + 1 + (i - 1), endpoint); }
    }
  }

  ghost predicate OnlyLastAwaited(outcomes: seq<Outcome>, last: bool)
  {
    && (forall i :: 0 <= i < |outcomes| - 1 ==> !outcomes[i].Awaited?)
    && (last <==> outcomes != [] && outcomes[|outcomes| - 1].Awaited?)
  }

  /** Each record gets the answer to its own request; only the last one can be awaited. */
  lemma {:induction false} DrainTreatsEach(pending: seq<byte>, k: nat, endpoint: Oracle)
    ensures var p := Drain(pending, k, endpoint);
      && Treated(p.records, p.outcomes, k, endpoint)
      && OnlyLastAwaited(p.outcomes, p.end.Waiting? || p.end.TooBig?)
    decreases |pending|
  {
    hide Treat, FirstLine;
    var i := FirstLine(pending);
    if i < |pending| && i <= MAX_LINE && !Treat(pending[..i + 1], k, endpoint).Awaited? {
      DrainTreatsEach(pending[i + 1..], k + 1, endpoint);
      var p := Drain(pending[i + 1..], k + 1, endpoint);
      TreatedCons(pending[..i + 1], Treat(pending[..i + 1], k, endpoint), p.records, p.outcomes, k, endpoint);
    }
  }

  /** A pass asks for the host of every VOICE reply it takes, each under its own number. */
  lemma DrainAsksForTheHosts(pending: seq<byte>, k: nat, endpoint: Oracle)
    ensures var p := Drain(pending, k, endpoint);
      forall i :: 0 <= i < |p.records| ==> Asked(p.records[i], k + i, endpoint, p.outcomes[i])
  {
    hide Drain, Treat, Asked;
    DrainTreatsEach(pending, k, endpoint);
    var p := Drain(pending, k, endpoint);
    forall i | 0 <= i < |p.records|
      ensures Asked(p.records[i], k + i, endpoint, p.outcomes[i])
    {
      TreatAsksForTheHost(p.records[i], k + i, endpoint);
    }
  }

  /** Nothing is lost: what is kept is exactly what follows the records taken, and it is bounded. */
  lemma {:induction false} DrainKeepsTheRest(pending: seq<byte>, k: nat, endpoint: Oracle)
    ensures var p := Drain(pending, k, endpoint);
      && (p.end.Idle? || p.end.Waiting? ==> pending == Flatten(p.records) + p.rest)
      && (p.end.Waiting? ==> |p.rest| <= MAX_PENDING)
    decreases |pending|
  {
    hide Treat, FirstLine;
    var i := FirstLine(pending);
    if i < |pending| && i <= MAX_LINE {
      var r, rest := pending[..i + 1], pending[i + 1..];
      if Treat(r, k, endpoint).Awaited? {
        assert Flatten([r]) == r;
      } else {
        DrainKeepsTheRest(rest, k + 1, endpoint);
        FlattenCons(r, Drain(rest, k + 1, endpoint).records, Drain(rest, k + 1, endpoint).rest);
      }
    } else {
      assert Flatten<byte>([]) + pending == pending;
    }
  }

  /** A pass gives up on a pending endpoint exactly when more than 1 MiB follows the record that waits. */
  lemma {:induction false} DrainWaitsOrGivesUp(pending: seq<byte>, k: nat, endpoint: Oracle)
    ensures var p := Drain(pending, k, endpoint);
      && Flatten(p.records) <= pending
      && var rest := pending[|Flatten(p.records)|..];
        && (p.end.Waiting? ==> p.rest == rest && |rest| <= 1_048_576)
        && (p.end.TooBig? ==> p.rest == [] && |rest| > 1_048_576)
    decreases |pending|
  {
    hide Treat, FirstLine;
    var i := FirstLine(pending);
    if i < |pending| && i <= MAX_LINE {
      var r, rest := pending[..i + 1], pending[i + 1..];
      if Treat(r, k, endpoint).Awaited? {
        assert Flatten([r]) == r;
      } else {
        DrainWaitsOrGivesUp(rest, k + 1, endpoint);
        var p := Drain(rest, k + 1, endpoint);
        BehindTheFirst(r, p.records, pending, rest);
      }
    } else {
      assert Flatten<byte>([]) == [];
    }
  }

  lemma BehindTheFirst(r: Record, records: seq<Record>, pending: seq<byte>, rest: seq<byte>)
    requires pending == r + rest && Flatten(records) <= rest
    ensures Flatten([r] + records) <= pending
    ensures pending[|Flatten([r] + records)|..] == rest[|Flatten(records)|..]
  {
    assert ([r] + records)[1..] == records;
    assert Flatten([r] + records) == r + Flatten(records);
  }

  lemma FlattenCons(r: Record, records: seq<Record>, rest: seq<byte>)
    ensures Flatten([r] + records) + rest == r + (Flatten(records) + rest)
  {
    assert ([r] + records)[1..] == records;
    ConcatAssociates(r, Flatten(records), rest);
  }

  /** A pass that ends idle has taken every record; one that breaks the line bound has taken all before the long line.
      */
  lemma {:induction false} DrainIsExhaustive(pending: seq<byte>, k: nat, endpoint: Oracle)
    ensures var p := Drain(pending, k, endpoint);
      && (p.end.Idle? ==> !Overflows(pending) && p.records == Accepted(pending) && p.rest == Tail(pending))
      && (p.end.TooLong? ==> Overflows(pending) && p.records == Accepted(pending))
    decreases |pending|
  {
    hide Treat, FirstLine;
    var i := FirstLine(pending);
    if i < |pending| && i <= MAX_LINE && !Treat(pending[..i + 1], k, endpoint).Awaited? {
      DrainIsExhaustive(pending[i + 1..], k + 1, endpoint);
    }
  }

  // ---------------------------------------------------------------------------
  // With synchronous endpoints chunks do not matter
  // ---------------------------------------------------------------------------

  ghost predicate Synchronous(endpoint: Oracle) { forall k, host :: !endpoint(k, host).Later? }

  datatype Delivery = Delivery(pending: seq<byte>, records: seq<Record>, outcomes: seq<Outcome>, closed: bool)

  function Deliver(d: Delivery, data: seq<byte>, endpoint: Oracle): (r: Delivery)
  {
    if d.closed then d else
      var p := Drain(d.pending + data, |d.records|, endpoint);
      Delivery(p.rest, d.records + p.records, d.outcomes + p.outcomes, !p.end.Idle?)
  }

  function DeliverAll(chunks: seq<seq<byte>>, endpoint: Oracle): (r: Delivery)
    decreases |chunks|
  {
    if chunks == [] then Delivery([], [], [], false) else
      Deliver(DeliverAll(chunks[..|chunks| - 1], endpoint), chunks[|chunks| - 1], endpoint)
  }

  function Answers(records: seq<Record>, endpoint: Oracle): (outcomes: seq<Outcome>)
  {
    seq(|records|, i requires 0 <= i < |records| => Treat(records[i], i, endpoint))
  }

  lemma TreatedAreAnswers(r1: seq<Record>, r2: seq<Record>, o2: seq<Outcome>, endpoint: Oracle)
    requires |r2| == |o2| && Treated(r2, o2, |r1|, endpoint)
    ensures Answers(r1 + r2, endpoint) == Answers(r1, endpoint) + o2
  {
    hide Treat;
    var all := Answers(r1 + r2, endpoint);
    forall i | 0 <= i < |r1| + |r2| ensures all[i] == (Answers(r1, endpoint) + o2)[i] {
      if i >= |r1| { assert o2[i - |r1|] == Treat(r2[i - |r1|], |r1| + (i - |r1|), endpoint); }
    }
  }

  /** Output and the moment of the 64 KiB close depend on the bytes alone: after any chunking of b, the records treated
      are those in front of the first line that is too long, each with its own answer, and the connection is closed
      exactly when there is such a line. */
  lemma {:induction false} ChunksDoNotMatter(chunks: seq<seq<byte>>, endpoint: Oracle)
    requires Synchronous(endpoint)
    ensures var d, b := DeliverAll(chunks, endpoint), Flatten(chunks);
      && d.records == Accepted(b) && d.outcomes == Answers(Accepted(b), endpoint)
      && (d.closed <==> Overflows(b))
      && (!d.closed ==> d.pending == Tail(b))
    decreases |chunks|
  {
    if chunks != [] {
      hide Drain, Accepted, Overflows, Tail, Treat;
      var front, last := chunks[..|chunks| - 1], chunks[|chunks| - 1];
      assert chunks == front + [last];
      FlattenSnoc(front, last);
      ChunksDoNotMatter(front, endpoint);
      BoundOfAppend(Flatten(front), last);
      TailOfAppend(Flatten(front), last);
      var d := DeliverAll(front, endpoint);
      if !d.closed {
        DrainIsExhaustive(d.pending + last, |d.records|, endpoint);
        DrainNeverWaits(d.pending + last, |d.records|, endpoint);
        DrainTreatsEach(d.pending + last, |d.records|, endpoint);
        var p := Drain(d.pending + last, |d.records|, endpoint);
        TreatedAreAnswers(d.records, p.records, p.outcomes, endpoint);
      }
    }
  }

  lemma {:induction false} TailOfAppend(a: seq<byte>, b: seq<byte>)
    ensures Tail(a + b) == Tail(Tail(a) + b)
    ensures Records(a + b) == Records(a) + Records(Tail(a) + b)
    decreases |a|
  {
    hide Records, Tail, FirstLine;
    FirstRecordOf(a, b);
    var i := FirstLine(a);
    if i < |a| { TailOfAppend(a[i + 1..], b); }
  }

  lemma FirstRecordOf(a: seq<byte>, b: seq<byte>)
    ensures var i := FirstLine(a);
      if i == |a| then Tail(a) == a && Records(a) == []
      else
        var r, rest := a[..i + 1], a[i + 1..];
        && Tail(a) == Tail(rest) && Records(a) == [r] + Records(rest)
        && Tail(a + b) == Tail(rest + b) && Records(a + b) == [r] + Records(rest + b)
  {
    hide FirstLine;
    FirstLineOfAppend(a, b);
    var i := FirstLine(a);
    if i < |a| { assert (a + b)[..i + 1] == a[..i + 1] && (a + b)[i + 1..] == a[i + 1..] + b; }
  }

  lemma {:induction false} DrainNeverWaits(pending: seq<byte>, k: nat, endpoint: Oracle)
    requires Synchronous(endpoint)
    ensures Drain(pending, k, endpoint).end.Idle? || Drain(pending, k, endpoint).end.TooLong?
    decreases |pending|
  {
    hide FirstLine, Treat;
    var i := FirstLine(pending);
    TreatNeverWaits(pending[..if i < |pending| then i + 1 else i], k, endpoint);
    if i < |pending| && i <= MAX_LINE { DrainNeverWaits(pending[i + 1..], k + 1, endpoint); }
  }

  lemma TreatNeverWaits(r: Record, k: nat, endpoint: Oracle)
    requires Synchronous(endpoint)
    ensures !Treat(r, k, endpoint).Awaited?
  {}
}
