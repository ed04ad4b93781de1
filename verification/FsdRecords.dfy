/** FSD records: splitting a byte stream at line feeds, and the host of a VOICE reply. */
module FsdRecords {
  import opened Options
  import opened Bytes

  const LF: byte := 10
  const CR: byte := 13
  const COLON: byte := 58
  const SLASH: byte := 47
  const DOLLAR_CR: seq<byte> := [36, 67, 82]  // "$CR"
  const VOICE: seq<byte> := [86, 79, 73, 67, 69, 58]  // "VOICE:"

  const MAX_LINE := 64 * 1024
  const MAX_PENDING := 1024 * 1024

  type Record = seq<byte>

  // ---------------------------------------------------------------------------
  // Records
  // ---------------------------------------------------------------------------

  /** Index of the first x at or after `from`; |b| when there is none. */
  function IndexOf(b: seq<byte>, x: byte, from: nat): (at: nat)
    requires from <= |b|
    ensures from <= at <= |b|
    ensures at < |b| ==> b[at] == x
    ensures forall k :: from <= k < at ==> b[k] != x
    decreases |b| - from
  {
    if from == |b| || b[from] == x then from else IndexOf(b, x, from + 1)
  }

  function FirstLine(b: seq<byte>): (at: nat)
    ensures at <= |b|
    ensures at < |b| ==> b[at] == LF
    ensures forall k :: 0 <= k < at ==> b[k] != LF
  {
    IndexOf(b, LF, 0)
  }

  predicate IsRecord(r: Record)
  {
    |r| > 0 && FirstLine(r) == |r| - 1
  }

  function Records(b: seq<byte>): (records: seq<Record>)
    ensures forall r :: r in records ==> IsRecord(r)
    decreases |b|
  {
    var i := FirstLine(b);
    if i == |b| then [] else
      FirstLineOfPrefix(b, i + 1);
      [b[..i + 1]] + Records(b[i + 1..])
  }

  /** What follows the last line feed. */
  function Tail(b: seq<byte>): (rest: seq<byte>)
    ensures FirstLine(rest) == |rest|
    decreases |b|
  {
    var i := FirstLine(b);
    if i == |b| then b else Tail(b[i + 1..])
  }

  lemma FirstLineOfPrefix(b: seq<byte>, n: nat)
    requires n <= |b|
    ensures FirstLine(b[..n]) == if FirstLine(b) < n then FirstLine(b) else n
  {
    var i, j := FirstLine(b), FirstLine(b[..n]);
    if i < n { assert b[..n][i] == LF; }
    if j < n { assert b[j] == LF; }
  }

  lemma FirstLineOfAppend(a: seq<byte>, b: seq<byte>)
    ensures FirstLine(a) < |a| ==> FirstLine(a + b) == FirstLine(a)
    ensures FirstLine(a) == |a| ==> FirstLine(a + b) == |a| + FirstLine(b)
  {
    var i, j := FirstLine(a + b), FirstLine(b);
    if i < |a| + |b| { assert (a + b)[i] == if i < |a| then a[i] else b[i - |a|]; }
    if FirstLine(a) < |a| { assert (a + b)[FirstLine(a)] == LF; }
    else if j < |b| { assert (a + b)[|a| + j] == LF; }
  }

  /** Records and their unfinished rest are all there is, and splitting loses nothing. */
  lemma {:induction false} RecordsLoseNothing(b: seq<byte>)
    ensures Flatten(Records(b)) + Tail(b) == b
    decreases |b|
  {
    var i := FirstLine(b);
    if i < |b| {
      RecordsLoseNothing(b[i + 1..]);
      ConcatAssociates(b[..i + 1], Flatten(Records(b[i + 1..])), Tail(b[i + 1..]));
    }
  }

  lemma RecordInFront(r: Record, more: seq<byte>)
    requires IsRecord(r)
    ensures Records(r + more) == [r] + Records(more) && Tail(r + more) == Tail(more)
    ensures Accepted(r + more) == if |r| - 1 > MAX_LINE then [] else [r] + Accepted(more)
    ensures Overflows(r + more) <==> |r| - 1 > MAX_LINE || Overflows(more)
  {
    FirstLineOfAppend(r, more);
    assert (r + more)[..|r|] == r && (r + more)[|r|..] == more;
  }

  /** Splitting is unique: complete records in front of a rest are the first records of the whole. */
  lemma {:induction false} RecordsInFront(done: seq<Record>, rest: seq<byte>)
    requires forall r :: r in done ==> IsRecord(r)
    ensures Records(Flatten(done) + rest) == done + Records(rest)
    ensures Tail(Flatten(done) + rest) == Tail(rest)
    decreases |done|
  {
    hide Records, Tail, Accepted, Overflows, IsRecord;
    if done == [] {
      assert Flatten(done) + rest == rest;
    } else {
      assert done[0] in done;
      var more := Flatten(done[1..]) + rest;
      RecordInFront(done[0], more);
      RecordsInFront(done[1..], rest);
      ConcatAssociates([done[0]], done[1..], Records(rest));
      assert Flatten(done) + rest == done[0] + more by { ConcatAssociates(done[0], Flatten(done[1..]), rest); }
      assert done == [done[0]] + done[1..];
    }
  }

  // ---------------------------------------------------------------------------
  // The 64 KiB bound, for a stream as a whole
  // ---------------------------------------------------------------------------

  /** Some line, complete or not, is longer than the bound. */
  predicate Overflows(b: seq<byte>)
    decreases |b|
  {
    var i := FirstLine(b);
    i > MAX_LINE || (i < |b| && Overflows(b[i + 1..]))
  }

  /** The complete records in front of the first line that is too long. */
  function Accepted(b: seq<byte>): (records: seq<Record>)
    decreases |b|
  {
    var i := FirstLine(b);
    if i == |b| || i > MAX_LINE then [] else [b[..i + 1]] + Accepted(b[i + 1..])
  }

  lemma {:induction false} AcceptedIsAll(b: seq<byte>)
    ensures Accepted(b) <= Records(b)
    ensures !Overflows(b) ==> Accepted(b) == Records(b) && |Tail(b)| <= MAX_LINE
    decreases |b|
  {
    var i := FirstLine(b);
    if i < |b| && i <= MAX_LINE { AcceptedIsAll(b[i + 1..]); }
  }

  /** Some record has more than 65536 bytes in front of its line feed. */
  ghost predicate HasLongRecord(records: seq<Record>)
  {
    exists i :: 0 <= i < |records| && |records[i]| > 65537
  }

  /** The bound is broken exactly when a complete record is too long, or the unfinished rest has more than 65536
      bytes. */
  lemma {:induction false} BoundIsExact(b: seq<byte>)
    ensures Overflows(b) <==> HasLongRecord(Records(b)) || |Tail(b)| > 65536
    decreases |b|
  {
    hide FirstLine, Records, Tail, Overflows, HasLongRecord;
    FirstOfAll(b);
    var i := FirstLine(b);
    if i < |b| {
      BoundIsExact(b[i + 1..]);
      OneRecordMore(b[..i + 1], Records(b[i + 1..]));
    } else {
      NoRecordIsLong();
    }
  }

  lemma NoRecordIsLong()
    ensures !HasLongRecord([])
  {}

  lemma OneRecordMore(r: Record, records: seq<Record>)
    ensures HasLongRecord([r] + records) <==> |r| > 65537 || HasLongRecord(records)
  {
    var all := [r] + records;
    assert all[0] == r;
    assert forall i :: 0 <= i < |records| ==> all[i + 1] == records[i];
    assert forall i :: 0 < i < |all| ==> all[i] == records[i - 1];
  }

  lemma FirstOfAll(b: seq<byte>)
    ensures var i := FirstLine(b);
      if i == |b| then Records(b) == [] && Tail(b) == b && Accepted(b) == [] && (Overflows(b) <==> i > 65536)
      else
        var r, rest := b[..i + 1], b[i + 1..];
        && Records(b) == [r] + Records(rest) && Tail(b) == Tail(rest)
        && (Overflows(b) <==> |r| > 65537 || Overflows(rest))
        && Accepted(b) == if |r| > 65537 then [] else [r] + Accepted(rest)
  {
    hide FirstLine;
  }

  /** The records accepted are those in front of the first that is too long. */
  lemma {:induction false} AcceptedIsExact(b: seq<byte>)
    ensures Accepted(b) <= Records(b) && !HasLongRecord(Accepted(b))
    ensures |Accepted(b)| < |Records(b)| ==> |Records(b)[|Accepted(b)|]| > 65537
    decreases |b|
  {
    hide FirstLine, Records, Tail, Accepted, HasLongRecord;
    FirstOfAll(b);
    NoRecordIsLong();
    var i := FirstLine(b);
    if i < |b| {
      AcceptedIsExact(b[i + 1..]);
      OneRecordMore(b[..i + 1], Accepted(b[i + 1..]));
    }
  }

  /** Later bytes neither hide a line that was too long nor change what was accepted before it; otherwise only the
      unfinished rest meets them. */
  lemma {:induction false} BoundOfAppend(a: seq<byte>, b: seq<byte>)
    ensures Overflows(a) ==> Overflows(a + b) && Accepted(a + b) == Accepted(a)
    ensures !Overflows(a) ==> Accepted(a + b) == Accepted(a) + Accepted(Tail(a) + b)
    ensures !Overflows(a) ==> (Overflows(a + b) <==> Overflows(Tail(a) + b))
    decreases |a|
  {
    hide FirstLine, Records, Tail, Accepted, Overflows;
    FirstOfAll(a);
    FirstOfAll(a + b);
    FirstLineOfAppend(a, b);
    var i := FirstLine(a);
    if i < |a| {
      var rest := a[i + 1..];
      assert (a + b)[..i + 1] == a[..i + 1] && (a + b)[i + 1..] == rest + b;
      BoundOfAppend(rest, b);
      ConcatAssociates([a[..i + 1]], Accepted(rest), Accepted(Tail(rest) + b));
    } else {
      assert [] + Accepted(a + b) == Accepted(a + b);
    }
  }

  // ---------------------------------------------------------------------------
  // VOICE replies
  // ---------------------------------------------------------------------------

  datatype Span = Span(start: nat, end: nat)

  predicate Stops(x: byte) { x == SLASH || x == CR || x == LF }

  function IndexOfStop(b: seq<byte>, from: nat): (at: nat)
    requires from <= |b|
    ensures from <= at <= |b|
    ensures at < |b| ==> Stops(b[at])
    ensures forall k :: from <= k < at ==> !Stops(b[k])
    decreases |b| - from
  {
    if from == |b| || Stops(b[from]) then from else IndexOfStop(b, from + 1)
  }

  /** End of a non-empty field that a colon closes. */
  function FieldEnd(b: seq<byte>, from: nat): (end: Option<nat>)
    requires from <= |b|
    ensures end.Some? ==> from < end.value < |b| && b[end.value] == COLON && COLON !in b[from..end.value]
  {
    var c := IndexOf(b, COLON, from);
    if c == |b| || c == from then None else Some(c)
  }

  /** Where the host of a VOICE reply begins, after the fields in front of it. */
  function HostStart(b: Record): (start: Option<nat>)
    ensures start.Some? ==> 3 < start.value <= |b|
  {
    if |b| < 3 || b[..3] != DOLLAR_CR then None else
      var c1 := FieldEnd(b, 3);
      if c1.None? then None else
        var c2 := FieldEnd(b, c1.value + 1);
        if c2.None? || c2.value + 7 > |b| || b[c2.value + 1..c2.value + 7] != VOICE then None else
          var c3 := FieldEnd(b, c2.value + 7);
          if c3.None? then None else Some(c3.value + 1)
  }

  /** The host in a VOICE reply, where the regular expression of rewriteVoiceServer finds it. */
  function VoiceHost(b: Record): (span: Option<Span>)
    ensures span.Some? ==> 0 < span.value.start < span.value.end < |b|
  {
    var h := HostStart(b);
    if h.None? then None else
      var s := IndexOfStop(b, h.value);
      if s == |b| || s == h.value || b[s] != SLASH then None else Some(Span(h.value, s))
  }

  ghost predicate Field(f: seq<byte>) { f != [] && COLON !in f }

  /** "$CR", server, ":", client, ":VOICE:", station, ":"; the host behind it ends at "/" and holds no line end. */
  lemma VoiceReplyText(server: seq<byte>, client: seq<byte>, station: seq<byte>, x: byte)
    ensures VoicePrefix(server, client, station)
      == [0x24, 0x43, 0x52] + server + [0x3a] + client + [0x3a, 0x56, 0x4f, 0x49, 0x43, 0x45, 0x3a] + station + [0x3a]
    ensures Stops(x) <==> x == 0x2f || x == 0x0d || x == 0x0a
  {
    assert [COLON] + VOICE == [0x3a, 0x56, 0x4f, 0x49, 0x43, 0x45, 0x3a];
  }

  ghost predicate Host(h: seq<byte>) { h != [] && forall k :: 0 <= k < |h| ==> !Stops(h[k]) }

  function VoicePrefix(server: seq<byte>, client: seq<byte>, station: seq<byte>): (p: seq<byte>)
  {
    DOLLAR_CR + server + [COLON] + client + [COLON] + VOICE + station + [COLON]
  }

  /** "$CR" server ":" client ":VOICE:" station ":" host "/" and anything. */
  ghost predicate VoiceReply(b: Record, server: seq<byte>, client: seq<byte>, station: seq<byte>, host: seq<byte>,
                             rest: seq<byte>)
  {
    && Field(server) && Field(client) && Field(station) && Host(host)
    && rest != [] && rest[0] == SLASH
    && b == VoicePrefix(server, client, station) + host + rest
  }

  function Rewrite(b: Record, address: seq<byte>): (r: seq<byte>)
  {
    var span := VoiceHost(b);
    if span.None? then b else b[..span.value.start] + address + b[span.value.end..]
  }

  lemma IndexOfIs(b: seq<byte>, x: byte, from: nat, at: nat)
    requires from <= at < |b| && b[at] == x && forall k :: from <= k < at ==> b[k] != x
    ensures IndexOf(b, x, from) == at
  {}

  lemma FieldEndIs(b: seq<byte>, p: seq<byte>, f: seq<byte>)
    requires Field(f) && p + f + [COLON] <= b
    ensures FieldEnd(b, |p|) == Some(|p| + |f|)
  {
    var q := p + f + [COLON];
    forall k | |p| <= k < |p| + |f| ensures b[k] != COLON { assert b[k] == q[k] == f[k - |p|] && f[k - |p|] in f; }
    assert b[|p| + |f|] == q[|p| + |f|];
    IndexOfIs(b, COLON, |p|, |p| + |f|);
  }

  lemma HostEndIs(b: seq<byte>, p: seq<byte>, host: seq<byte>, rest: seq<byte>)
    requires Host(host) && rest != [] && rest[0] == SLASH && b == p + host + rest
    ensures IndexOfStop(b, |p|) == |p| + |host|
  {
    var at := |p| + |host|;
    assert b[at] == rest[0];
    forall k | |p| <= k < at ensures !Stops(b[k]) { assert b[k] == host[k - |p|]; }
  }

  lemma PartOf(b: seq<byte>, p: seq<byte>, x: seq<byte>)
    requires p + x <= b
    ensures |p| + |x| <= |b| && p <= b && b[|p|..|p| + |x|] == x
  {
    assert b[..|p| + |x|] == p + x;
    assert b[|p|..|p| + |x|] == b[..|p| + |x|][|p|..];
  }

  /** Every text of that form is recognised, and the span is exactly its host. */
  lemma VoiceReplyIsFound(b: Record, server: seq<byte>, client: seq<byte>, station: seq<byte>, host: seq<byte>,
                          rest: seq<byte>)
    requires VoiceReply(b, server, client, station, host, rest)
    ensures var p := VoicePrefix(server, client, station);
      VoiceHost(b) == Some(Span(|p|, |p| + |host|))
  {
    hide IndexOfStop, HostStart, Field, Host;
    var p := VoicePrefix(server, client, station);
    PrefixIsFound(b, server, client, station);
    HostEndIs(b, p, host, rest);
    assert b[|p| + |host|] == rest[0];
    HostHasBytes(host);
  }

  lemma PrefixIsFound(b: Record, server: seq<byte>, client: seq<byte>, station: seq<byte>)
    requires Field(server) && Field(client) && Field(station) && VoicePrefix(server, client, station) <= b
    ensures HostStart(b) == Some(|VoicePrefix(server, client, station)|)
  {
    hide FieldEnd, Field;
    var p1 := DOLLAR_CR + server + [COLON];
    var p2 := p1 + client + [COLON];
    VoicePrefixParts(b, server, client, station);
    FieldEndIs(b, DOLLAR_CR, server);
    FieldEndIs(b, p1, client);
    FieldEndIs(b, p2 + VOICE, station);
  }

  lemma VoicePrefixParts(b: Record, server: seq<byte>, client: seq<byte>, station: seq<byte>)
    requires VoicePrefix(server, client, station) <= b
    ensures var p1 := DOLLAR_CR + server + [COLON];
      var p2 := p1 + client + [COLON];
      && p1 <= b && p2 <= b && b[..3] == DOLLAR_CR
      && b[|p2|..|p2| + 6] == VOICE && p2 + VOICE + station + [COLON] <= b
  {
    var p1 := DOLLAR_CR + server + [COLON];
    var p2 := p1 + client + [COLON];
    PartOf(b, p2 + VOICE + station, [COLON]);
    PartOf(b, p2 + VOICE, station);
    PartOf(b, p2, VOICE);
    PartOf(b, p1 + client, [COLON]);
    PartOf(b, p1, client);
    PartOf(b, DOLLAR_CR + server, [COLON]);
    PartOf(b, DOLLAR_CR, server);
  }

  lemma HostHasBytes(h: seq<byte>)
    requires Host(h)
    ensures |h| > 0
  {}

  lemma FieldInFront(b: seq<byte>, from: nat)
    requires from <= |b| && FieldEnd(b, from).Some?
    ensures var c := FieldEnd(b, from).value;
      Field(b[from..c]) && b[..c + 1] == b[..from] + b[from..c] + [COLON]
  {}

  /** Whatever is recognised has that form. */
  lemma VoiceHostIsReply(b: Record) returns (server: seq<byte>, client: seq<byte>, station: seq<byte>)
    requires VoiceHost(b).Some?
    ensures var s := VoiceHost(b).value;
      && VoiceReply(b, server, client, station, b[s.start..s.end], b[s.end..])
      && |VoicePrefix(server, client, station)| == s.start
  {
    hide HostStart, Field, IndexOfStop, Host;
    var s := VoiceHost(b).value;
    server, client, station := HostStartIsPrefix(b);
    HostInFront(b, s.start);
  }

  lemma HostStartIsPrefix(b: Record) returns (server: seq<byte>, client: seq<byte>, station: seq<byte>)
    requires HostStart(b).Some?
    ensures Field(server) && Field(client) && Field(station)
    ensures b[..HostStart(b).value] == VoicePrefix(server, client, station)
  {
    hide FieldEnd, Field;
    var c1 := FieldEnd(b, 3).value;
    var c2 := FieldEnd(b, c1 + 1).value;
    server, client, station := b[3..c1], b[c1 + 1..c2], b[c2 + 7..HostStart(b).value - 1];
    FieldInFront(b, 3);
    FieldInFront(b, c1 + 1);
    FieldInFront(b, c2 + 7);
    assert b[..c2 + 7] == b[..c2 + 1] + VOICE;
  }

  lemma HostInFront(b: seq<byte>, from: nat)
    requires from <= |b|
    ensures var s := IndexOfStop(b, from);
      b == b[..from] + b[from..s] + b[s..] && (s > from ==> Host(b[from..s]))
  {}

  /** Rewriting replaces the host of a VOICE reply and nothing else; the result is again one record, and a VOICE
      reply whose host is the address. */
  lemma RewriteReplacesTheHost(b: Record, address: seq<byte>, server: seq<byte>, client: seq<byte>, station: seq<byte>,
      host: seq<byte>, rest: seq<byte>)
    requires IsRecord(b) && VoiceReply(b, server, client, station, host, rest)
    ensures Rewrite(b, address) == VoicePrefix(server, client, station) + address + rest
    ensures LF !in address ==> IsRecord(Rewrite(b, address))
    ensures Host(address) ==> VoiceReply(Rewrite(b, address), server, client, station, address, rest)
  {
    hide VoiceHost;
    VoiceReplyIsFound(b, server, client, station, host, rest);
    var p := VoicePrefix(server, client, station);
    assert b[..|p|] == p && b[|p| + |host|..] == rest;
    var r := p + address + rest;
    if LF !in address {
      assert rest[|rest| - 1] == b[|b| - 1] == LF;
      forall k | 0 <= k < |r| - 1 ensures r[k] != LF {
        if k < |p| { assert r[k] == b[k]; }
        else if k < |p| + |address| { assert r[k] == address[k - |p|] && r[k] in address; }
        else { assert r[k] == rest[k - |p| - |address|] == b[k - |address| + |host|]; }
      }
      IndexOfIs(r, LF, 0, |r| - 1);
    }
  }
}
