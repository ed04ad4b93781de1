/** Weather on request: which pending METAR and TAF requests a reply answers,
  * and which reports the two airports of the flight plan show. */
module Weather {
  import opened Options
  import opened Text
  import opened Selections

  datatype Kind = Metar | Taf
  datatype Source = Manual | Panel | Auto
  datatype Role = NoRole | Departure | Destination
  datatype Request = Request(source: Source, role: Role, requestedAt: int)
  datatype Reply = Reply(kind: Kind, icao: string, text: string)
  datatype Key = Key(kind: Kind, icao: string)

  const TTL_MS := 120_000
  const MAX_PENDING := 8

  // ----- Airports ----------------------------------------------------------------

  predicate Icao(s: string) {
    |s| == 4 && forall i :: 0 <= i < 4 ==> 'A' <= s[i] <= 'Z'
  }

  function NormalizeIcao(value: string): (code: string)
    ensures code == "" || Icao(code)
  {
    var text := Upper(Trim(value));
    if Icao(text) then text else ""
  }

  lemma IcaoIsNormal(code: string)
    requires Icao(code)
    ensures Upper(code) == code && NormalizeIcao(code) == code
  {
    TrimmedIsTrimmed(code);
    assert Upper(code) == code;
  }

  // ----- Replies -------------------------------------------------------------------

  /** The text without one "=" at its very end. */
  function Unclosed(text: string): string {
    if text != "" && text[|text| - 1] == '=' then text[..|text| - 1] else text
  }

  /** How many words in front are keywords. */
  function Skipped(kind: Kind, text: string): nat {
    var first := if Opening(kind, Word(text, 0)) then 1 else 0;
    if Correction(kind, Word(text, first)) then first + 1 else first
  }

  /** The airport behind the report's own keywords. */
  function ReadIcao(kind: Kind, text: string): (icao: Option<string>)
    ensures icao.Some? ==> Icao(icao.value)
  {
    var candidate := Upper(Word(Unclosed(text), Skipped(kind, Unclosed(text))));
    if Icao(candidate) then Some(candidate) else None
  }

  /** A message as a weather reply: the sender names the kind. */
  function ParsedReply(sender: string, text: string): (reply: Option<Reply>)
    ensures reply.Some? ==> Icao(reply.value.icao) && reply.value.text == Trim(text)
  {
    var name := Upper(sender);
    if name != "TAF" && name != "METAR" then None else
      var kind := if name == "TAF" then Taf else Metar;
      var icao := ReadIcao(kind, text);
      if icao.None? then None else Some(Reply(kind, icao.value, Trim(text)))
  }

  /** A message is a reply exactly when its sender names a kind and an airport
    * can be read; TAF is for forecasts and METAR for observations. */
  lemma SenderNamesTheKind(sender: string, text: string)
    ensures ParsedReply(sender, text).Some? <==>
      || (Upper(sender) == "TAF" && ReadIcao(Taf, text).Some?)
      || (Upper(sender) == "METAR" && ReadIcao(Metar, text).Some?)
    ensures var r := ParsedReply(sender, text);
      && (Upper(sender) == "TAF" && r.Some? ==> r.value.kind == Taf && Some(r.value.icao) == ReadIcao(Taf, text))
      && (Upper(sender) == "METAR" && r.Some? ==> r.value.kind == Metar && Some(r.value.icao) == ReadIcao(Metar, text))
  {
    hide Upper, ReadIcao;
  }

  /** What may stand in front of the airport: the kind of report, then a
    * correction or amendment, in any letter case; each may be missing. */
  predicate Keywords(kind: Kind, words: seq<string>) {
    && |words| <= 2
    && (|words| == 1 ==> Opening(kind, words[0]) || Correction(kind, words[0]))
    && (|words| == 2 ==> Opening(kind, words[0]) && Correction(kind, words[1]))
  }

  predicate Opening(kind: Kind, word: string) {
    Upper(word) in if kind.Metar? then {"METAR", "SPECI"} else {"TAF"}
  }

  predicate Correction(kind: Kind, word: string) {
    Upper(word) in if kind.Metar? then {"COR"} else {"AMD", "COR"}
  }

  /** The keywords, in any letter case. */
  lemma KeywordTexts(word: string)
    ensures Opening(Metar, word) <==> Upper(word) == "METAR" || Upper(word) == "SPECI"
    ensures Opening(Taf, word) <==> Upper(word) == "TAF"
    ensures Correction(Metar, word) <==> Upper(word) == "COR"
    ensures Correction(Taf, word) <==> Upper(word) == "AMD" || Upper(word) == "COR"
  {
    hide Upper;
  }

  /** A reply is for an airport exactly when the airport is the first word
    * behind such keywords. */
  lemma AirportIsFirstBehindKeywords(kind: Kind, text: string, code: string)
    ensures var words := Words(Unclosed(text));
      ReadIcao(kind, text) == Some(code) <==>
        exists n :: 0 <= n < |words| && Keywords(kind, words[..n]) && Upper(words[n]) == code && Icao(code)
  {
    hide Words, Unclosed, Upper, Skipped, Keywords;
    var words := Words(Unclosed(text));
    if ReadIcao(kind, text) == Some(code) {
      var n := Skipped(kind, Unclosed(text));
      EmptyIsNoKeyword();
      assert n < |words| && words[n] == Word(Unclosed(text), n);
      SkippedAreKeywords(kind, Unclosed(text));
      assert Keywords(kind, words[..n]) && Upper(words[n]) == code && Icao(code);
    }
    forall n | 0 <= n < |words| && Keywords(kind, words[..n]) && Upper(words[n]) == code && Icao(code)
      ensures ReadIcao(kind, text) == Some(code)
    {
      SkippedKeywords(kind, Unclosed(text), n);
    }
  }

  lemma SkippedAreKeywords(kind: Kind, text: string)
    requires Skipped(kind, text) < |Words(text)|
    ensures Keywords(kind, Words(text)[..Skipped(kind, text)])
  {
    hide Words, Upper;
    var words, n := Words(text), Skipped(kind, text);
    assert forall i :: 0 <= i < n ==> words[..n][i] == words[i];
    assert n > 0 ==> Word(text, 0) == words[0];
    assert n > 1 ==> Word(text, 1) == words[1];
  }

  lemma SkippedKeywords(kind: Kind, text: string, n: nat)
    requires n < |Words(text)| && Keywords(kind, Words(text)[..n]) && Icao(Upper(Words(text)[n]))
    ensures Skipped(kind, text) == n
  {
    hide Words, Upper;
    var words := Words(text);
    assert forall i :: 0 <= i < n ==> words[..n][i] == words[i];
    AirportIsNoKeyword(kind, words[n]);
    assert n > 0 ==> Word(text, 0) == words[0];
    assert n > 1 ==> Word(text, 1) == words[1];
    assert Word(text, n) == words[n];
    KeywordsDiffer(kind, Word(text, 0));
  }

  lemma AirportIsNoKeyword(kind: Kind, word: string)
    requires Icao(Upper(word))
    ensures !Opening(kind, word) && !Correction(kind, word)
  {
    hide Upper;
  }

  lemma KeywordsDiffer(kind: Kind, word: string)
    ensures Opening(kind, word) ==> !Correction(kind, word)
  {
    hide Upper;
  }

  lemma EmptyIsNoKeyword()
    ensures Upper("") == ""
  {
  }

  // ----- Pending requests --------------------------------------------------------

  function Live(list: seq<Request>, now: int): (live: seq<Request>)
    ensures |live| <= |list|
  {
    if list == [] then []
    else if list[0].requestedAt >= now - TTL_MS then [list[0]] + Live(list[1..], now)
    else Live(list[1..], now)
  }

  /** Made at most two minutes ago. */
  function YoungAt(now: int): Request -> bool {
    (r: Request) => now - r.requestedAt <= 120_000
  }

  /** For one of the two queues, and made at most two minutes ago. */
  function WaitingAt(now: int, manual: bool): Request -> bool {
    (r: Request) => now - r.requestedAt <= 120_000 && r.source.Manual? == manual
  }

  /** Exactly the young requests stay, each once, in order. */
  lemma {:induction false} YoungRequestsStay(list: seq<Request>, now: int)
    ensures Picks(list, Live(list, now), YoungAt(now))
    decreases |list|
  {
    if list == [] {
      PicksNothing(YoungAt(now));
    } else {
      YoungRequestsStay(list[1..], now);
      PicksCons(list[1..], Live(list[1..], now), list[0], YoungAt(now));
      assert [list[0]] + list[1..] == list;
    }
  }

  /** And each queue holds exactly its own of them. */
  lemma {:induction false} QueuesOfYoungRequests(list: seq<Request>, now: int, manual: bool)
    ensures Picks(list, Queue(Live(list, now), manual), WaitingAt(now, manual))
    decreases |list|
  {
    if list == [] {
      PicksNothing(WaitingAt(now, manual));
    } else {
      var rest := list[1..];
      QueuesOfYoungRequests(rest, now, manual);
      PicksCons(rest, Queue(Live(rest, now), manual), list[0], WaitingAt(now, manual));
      assert [list[0]] + rest == list;
      assert ([list[0]] + Live(rest, now))[1..] == Live(rest, now);
    }
  }

  /** The requests typed by the pilot, or the ones made for the panel, in order. */
  function Queue(list: seq<Request>, manual: bool): (queue: seq<Request>)
    ensures |queue| <= |list|
  {
    if list == [] then []
    else if list[0].source.Manual? == manual then [list[0]] + Queue(list[1..], manual)
    else Queue(list[1..], manual)
  }

  function Rest(queue: seq<Request>): seq<Request> {
    if queue == [] then [] else queue[1..]
  }

  function First(list: seq<Request>, manual: bool): (i: int)
    ensures -1 <= i < |list|
    ensures i >= 0 ==> list[i].source.Manual? == manual
    ensures forall j :: 0 <= j < (if i < 0 then |list| else i) ==> list[j].source.Manual? != manual
  {
    if list == [] then -1
    else if list[0].source.Manual? == manual then 0
    else
      var i := First(list[1..], manual);
      if i < 0 then -1 else i + 1
  }

  function Without(list: seq<Request>, i: nat): (r: seq<Request>)
    requires i < |list|
    ensures |r| == |list| - 1
  {
    list[..i] + list[i + 1..]
  }

  /** Taking out the first request of one queue leaves the other as it was. */
  lemma {:induction false} TakeFirst(list: seq<Request>, manual: bool)
    ensures First(list, manual) < 0 <==> Queue(list, manual) == []
    ensures var i := First(list, manual);
      i >= 0 ==>
        && Queue(list, manual)[0] == list[i]
        && Queue(Without(list, i), manual) == Rest(Queue(list, manual))
        && Queue(Without(list, i), !manual) == Queue(list, !manual)
    decreases |list|
  {
    if list != [] {
      if list[0].source.Manual? == manual {
        assert Without(list, 0) == list[1..];
      } else {
        TakeFirst(list[1..], manual);
        var i := First(list[1..], manual);
        if i >= 0 {
          var shorter := Without(list[1..], i);
          assert Without(list, i + 1) == [list[0]] + shorter;
          assert ([list[0]] + shorter)[1..] == shorter;
        }
      }
    }
  }

  predicate InTimeOrder(list: seq<Request>, clock: int) {
    && (forall i :: 0 <= i < |list| ==> list[i].requestedAt <= clock)
    && (forall i, j :: 0 <= i <= j < |list| ==> list[i].requestedAt <= list[j].requestedAt)
  }

  lemma {:induction false} LiveKeepsOrder(list: seq<Request>, now: int, clock: int)
    requires InTimeOrder(list, clock) && clock <= now
    ensures InTimeOrder(Live(list, now), now)
    ensures forall i :: 0 <= i < |Live(list, now)| ==> list[0].requestedAt <= Live(list, now)[i].requestedAt
    decreases |list|
  {
    if list != [] {
      var tail := list[1..];
      LiveKeepsOrder(tail, now, clock);
      if tail != [] {
        assert list[0].requestedAt <= tail[0].requestedAt;
      }
      var live := Live(tail, now);
      assert forall i :: 0 <= i < |live| ==> list[0].requestedAt <= live[i].requestedAt;
    }
  }

  /** The newest eight. */
  function Bounded(list: seq<Request>): (r: seq<Request>)
    ensures |r| == (if |list| <= 8 then |list| else 8)
    ensures forall i :: 0 <= i < |r| ==> r[i] == list[|list| - |r| + i]
  {
    if |list| > MAX_PENDING then list[|list| - MAX_PENDING..] else list
  }

  lemma NewestKeepsOrder(list: seq<Request>, r: Request, now: int)
    requires InTimeOrder(list, now) && r.requestedAt == now
    ensures InTimeOrder(Bounded(list + [r]), now)
  {
    assert InTimeOrder(list + [r], now);
  }

  lemma NothingInOrder(now: int)
    ensures InTimeOrder([], now)
  {
  }

  lemma OldestIsFirst(list: seq<Request>, manual: bool, clock: int)
    requires InTimeOrder(list, clock) && First(list, manual) >= 0
    ensures forall r <- list :: r.source.Manual? == manual ==> list[First(list, manual)].requestedAt <= r.requestedAt
  {
  }

  /** What one reply does to the live requests of its kind and airport. */
  datatype Answer = Answer(rest: seq<Request>, panel: Option<Request>, hidden: bool)

  function Answered(list: seq<Request>): Answer {
    var manual := First(list, true);
    var list' := if manual >= 0 then Without(list, manual) else list;
    var panel := First(list', false);
    if panel >= 0 then Answer(Without(list', panel), Some(list'[panel]), manual < 0)
    else Answer(list', None, false)
  }

  /** A reply answers the oldest request of each queue that has one, hands
    * the panel's to the panel, and stays out of the chat exactly when only
    * the panel was waiting. */
  lemma ReplyAnswersTheOldest(list: seq<Request>)
    ensures Queue(Answered(list).rest, true) == Rest(Queue(list, true))
    ensures Queue(Answered(list).rest, false) == Rest(Queue(list, false))
    ensures Answered(list).panel == if Queue(list, false) == [] then None else Some(Queue(list, false)[0])
    ensures Answered(list).hidden <==> Queue(list, true) == [] && Queue(list, false) != []
  {
    hide First, Queue, Without;
    TakeFirst(list, true);
    var manual := First(list, true);
    var list' := if manual >= 0 then Without(list, manual) else list;
    TakeFirst(list', false);
  }

  /** How many of the next `n` replies stay out of the chat. */
  function HiddenReplies(list: seq<Request>, n: nat): nat {
    if n == 0 then 0
    else (if Answered(list).hidden then 1 else 0) + HiddenReplies(Answered(list).rest, n - 1)
  }

  function Max(a: int, b: int): int {
    if a < b then b else a
  }

  function Min(a: int, b: int): int {
    if a < b then a else b
  }

  /** In whatever order pilot and panel asked, the replies come to chat as
    * long as the pilot still waits, and only the surplus of panel requests
    * keeps later ones out. */
  lemma {:induction false} OnlyTheSurplusIsHidden(list: seq<Request>, n: nat)
    ensures HiddenReplies(list, n) == Max(0, Min(n, |Queue(list, false)|) - |Queue(list, true)|)
    decreases n
  {
    hide Queue, Answered;
    if n > 0 {
      ReplyAnswersTheOldest(list);
      OnlyTheSurplusIsHidden(Answered(list).rest, n - 1);
    }
  }

  // ----- Reports on show -----------------------------------------------------------

  datatype Plan = Plan(departure: string, destination: string, alternate: string)
  datatype Report = Report(text: string, receivedAt: int)
  datatype Slot = Slot(icao: string, metar: Option<Report>, taf: Option<Report>)
  datatype Status = Filed | Missing

  const NO_PLAN := Plan("", "", "")

  function Or(a: string, b: string): string {
    if a != "" then a else b
  }

  function Normalized(next: Plan, fallback: Plan): Plan {
    Plan(Or(NormalizeIcao(next.departure), NormalizeIcao(fallback.departure)),
         Or(NormalizeIcao(next.destination), NormalizeIcao(fallback.destination)),
         Or(NormalizeIcao(next.alternate), NormalizeIcao(fallback.alternate)))
  }

  /** A named airport replaces the one before, an airport that is not named, or
    * not readable, stays. */
  lemma NamedAirportsReplace(next: Plan, fallback: Plan)
    requires WellFormed(fallback)
    ensures var plan := Normalized(next, fallback);
      && plan.departure
         == (if NormalizeIcao(next.departure) == "" then fallback.departure else NormalizeIcao(next.departure))
      && plan.destination
         == (if NormalizeIcao(next.destination) == "" then fallback.destination else NormalizeIcao(next.destination))
      && plan.alternate
         == (if NormalizeIcao(next.alternate) == "" then fallback.alternate else NormalizeIcao(next.alternate))
  {
    hide NormalizeIcao, Code;
    CodeIsNormal(fallback.departure);
    CodeIsNormal(fallback.destination);
    CodeIsNormal(fallback.alternate);
  }

  function Same(a: Plan, b: Plan): bool {
    && NormalizeIcao(a.departure) == NormalizeIcao(b.departure)
    && NormalizeIcao(a.destination) == NormalizeIcao(b.destination)
    && NormalizeIcao(a.alternate) == NormalizeIcao(b.alternate)
  }

  predicate Code(s: string) {
    s == "" || Icao(s)
  }

  predicate WellFormed(plan: Plan) {
    Code(plan.departure) && Code(plan.destination) && Code(plan.alternate)
  }

  lemma CodeIsNormal(s: string)
    requires Code(s)
    ensures NormalizeIcao(s) == s
  {
    if s != "" {
      IcaoIsNormal(s);
    }
  }

  lemma SameIsEqual(a: Plan, b: Plan)
    requires WellFormed(a) && WellFormed(b)
    ensures Same(a, b) <==> a == b
  {
    hide NormalizeIcao, Code;
    CodeIsNormal(a.departure);
    CodeIsNormal(a.destination);
    CodeIsNormal(a.alternate);
    CodeIsNormal(b.departure);
    CodeIsNormal(b.destination);
    CodeIsNormal(b.alternate);
  }

  function EmptySlot(icao: string): Slot {
    Slot(NormalizeIcao(icao), None, None)
  }

  /** A report handed over for one of the two airports. */
  datatype Delivery = Delivery(toDestination: bool, kind: Kind, icao: string, text: string, at: int)

  predicate Meant(d: Delivery, toDestination: bool, kind: Kind, code: string) {
    d.toDestination == toDestination && d.kind == kind && code != "" && NormalizeIcao(d.icao) == code
  }

  /** The last report delivered for an airport in its role. */
  function Latest(ds: seq<Delivery>, toDestination: bool, kind: Kind, code: string): Option<Report> {
    if ds == [] then None
    else
      var d := ds[|ds| - 1];
      if Meant(d, toDestination, kind, code) then Some(Report(Trim(d.text), d.at))
      else Latest(ds[..|ds| - 1], toDestination, kind, code)
  }

  function Shown(ds: seq<Delivery>, toDestination: bool, code: string): Slot {
    Slot(code, Latest(ds, toDestination, Metar, code), Latest(ds, toDestination, Taf, code))
  }

  lemma ShownSnoc(ds: seq<Delivery>, d: Delivery, toDestination: bool, code: string)
    ensures var slot := Shown(ds, toDestination, code);
      Shown(ds + [d], toDestination, code)
        == if !Meant(d, toDestination, d.kind, code) then slot
           else if d.kind.Taf? then slot.(taf := Some(Report(Trim(d.text), d.at)))
           else slot.(metar := Some(Report(Trim(d.text), d.at)))
  {
    assert (ds + [d])[..|ds|] == ds;
  }

  /** A report on show was delivered for that very airport, and none came
    * after it. */
  lemma {:induction false} ShownReportIsLatest(ds: seq<Delivery>, toDestination: bool, kind: Kind, code: string)
    ensures match Latest(ds, toDestination, kind, code)
      case Some(report) => exists i ::
        && 0 <= i < |ds|
        && Meant(ds[i], toDestination, kind, code)
        && report == Report(Trim(ds[i].text), ds[i].at)
        && (forall j :: i < j < |ds| ==> !Meant(ds[j], toDestination, kind, code))
      case None => forall i :: 0 <= i < |ds| ==> !Meant(ds[i], toDestination, kind, code)
    decreases |ds|
  {
    hide Meant;
    if ds != [] {
      var n := |ds| - 1;
      ShownReportIsLatest(ds[..n], toDestination, kind, code);
      if !Meant(ds[n], toDestination, kind, code) {
        assert forall i :: 0 <= i < n ==> ds[..n][i] == ds[i];
      }
    }
  }

  class AppState {
    var flightPlanStatus: Status
    var flightPlan: Plan
    var departure: Slot
    var destination: Slot
    /** Since when the plan is in effect, and every report handed over since. */
    ghost var planSince: int
    ghost var deliveries: seq<Delivery>
    ghost var clock: int

    /** The slots are the plan's airports with the last report delivered for
      * each since the plan took effect. */
    ghost predicate Valid()
      reads this
    {
      && WellFormed(flightPlan)
      && (flightPlanStatus.Missing? ==> flightPlan == NO_PLAN)
      && departure == Shown(deliveries, false, flightPlan.departure)
      && destination == Shown(deliveries, true, flightPlan.destination)
      && planSince <= clock
      && (forall i :: 0 <= i < |deliveries| ==> planSince <= deliveries[i].at <= clock)
    }

    constructor (now: int)
      ensures Valid() && flightPlan == NO_PLAN && clock == planSince == now && deliveries == []
    {
      flightPlanStatus := Missing;
      flightPlan := NO_PLAN;
      departure := EmptySlot("");
      destination := EmptySlot("");
      planSince, deliveries, clock := now, [], now;
    }

    /** `next` has "" where the message names no airport. A filed plan keeps
      * the airports it does not name; any change of the three empties both
      * slots, and no change keeps every report. */
    method UpdateFlightPlanStatus(status: Status, next: Plan, now: int) returns (changed: bool)
      requires clock <= now
      requires Valid()
      modifies this
      ensures Valid() && clock == now && flightPlanStatus == status
      ensures flightPlan == if status.Filed? then Normalized(next, old(flightPlan)) else NO_PLAN
      ensures flightPlan == old(flightPlan) ==> planSince == old(planSince) && deliveries == old(deliveries)
      ensures flightPlan != old(flightPlan) ==> planSince == now && deliveries == []
      ensures changed <==> flightPlan != old(flightPlan) || status != old(flightPlanStatus)
    {
      hide NormalizeIcao, Icao;
      clock := now;
      var nextPlan := if status.Filed? then Normalized(next, flightPlan) else NO_PLAN;
      SameIsEqual(flightPlan, nextPlan);
      var planChanged := !Same(flightPlan, nextPlan);
      if flightPlanStatus == status && !planChanged {
        return false;
      }
      flightPlanStatus := status;
      if planChanged {
        flightPlan := nextPlan;
        CodeIsNormal(nextPlan.departure);
        CodeIsNormal(nextPlan.destination);
        departure := EmptySlot(nextPlan.departure);
        destination := EmptySlot(nextPlan.destination);
        planSince, deliveries := now, [];
      }
      return true;
    }

    method UpdateWeather(role: Role, kind: Kind, icao: string, text: string, now: int) returns (ok: bool)
      requires clock <= now
      requires Valid()
      modifies this
      ensures Valid() && clock == now
      ensures flightPlan == old(flightPlan) && flightPlanStatus == old(flightPlanStatus) && planSince == old(planSince)
      ensures deliveries == old(deliveries) + [Delivery(role.Destination?, kind, icao, text, now)]
      ensures ok <==> Meant(Delivery(role.Destination?, kind, icao, text, now), role.Destination?, kind,
                            if role.Destination? then flightPlan.destination else flightPlan.departure)
    {
      hide NormalizeIcao, Trim, Latest, WellFormed;
      ghost var d := Delivery(role.Destination?, kind, icao, text, now);
      ShownSnoc(deliveries, d, false, flightPlan.departure);
      ShownSnoc(deliveries, d, true, flightPlan.destination);
      clock, deliveries := now, deliveries + [d];
      var slot := if role.Destination? then destination else departure;
      var code := NormalizeIcao(icao);
      if code == "" || slot.icao != code {
        return false;
      }
      var report := Some(Report(Trim(text), now));
      slot := if kind.Taf? then slot.(taf := report) else slot.(metar := report);
      if role.Destination? {
        destination := slot;
      } else {
        departure := slot;
      }
      return true;
    }

    /** What a slot shows is for the plan's airport, came after the plan took
      * effect, and is the text of a report delivered for that airport. */
    lemma OnShowIsCurrent(toDestination: bool, kind: Kind)
      requires Valid()
      ensures var slot := if toDestination then destination else departure;
        var report := if kind.Taf? then slot.taf else slot.metar;
        && slot.icao == (if toDestination then flightPlan.destination else flightPlan.departure)
        && (report.Some? ==>
          && Icao(slot.icao)
          && planSince <= report.value.receivedAt <= clock
          && (exists d <- deliveries ::
                && Meant(d, toDestination, kind, slot.icao)
                && report.value == Report(Trim(d.text), d.at)))
    {
      hide Trim, NormalizeIcao, Icao;
      ShownReportIsLatest(deliveries, toDestination, kind,
                          if toDestination then flightPlan.destination else flightPlan.departure);
    }

    method RoleForWeatherIcao(icao: string) returns (role: Role)
      ensures role == RoleIn(flightPlan, icao)
    {
      var code := NormalizeIcao(icao);
      if code == "" {
        return NoRole;
      }
      if flightPlan.departure == code {
        return Departure;
      }
      if flightPlan.destination == code {
        return Destination;
      }
      return NoRole;
    }
  }

  // ----- The matcher ------------------------------------------------------------------

  function Cleaned(pending: map<Key, seq<Request>>, now: int): map<Key, seq<Request>> {
    map key | key in pending && Live(pending[key], now) != [] :: Live(pending[key], now)
  }

  function ListOf(pending: map<Key, seq<Request>>, key: Key): seq<Request> {
    if key in pending then pending[key] else []
  }

  function Saved(pending: map<Key, seq<Request>>, key: Key, list: seq<Request>): map<Key, seq<Request>> {
    if list != [] then pending[key := list] else pending - {key}
  }

  predicate Sound(pending: map<Key, seq<Request>>, clock: int) {
    forall key <- pending :: 0 < |pending[key]| <= MAX_PENDING && InTimeOrder(pending[key], clock)
  }

  lemma CleanedIsSound(pending: map<Key, seq<Request>>, clock: int, now: int)
    requires Sound(pending, clock) && clock <= now
    ensures Sound(Cleaned(pending, now), now)
    ensures forall key :: ListOf(Cleaned(pending, now), key) == Live(ListOf(pending, key), now)
  {
    hide Live, InTimeOrder;
    forall key | key in pending
      ensures InTimeOrder(Live(pending[key], now), now)
    {
      LiveKeepsOrder(pending[key], now, clock);
    }
    assert Live([], now) == [] by {
      NothingLive(now);
    }
  }

  lemma CleanedList(pending: map<Key, seq<Request>>, key: Key, now: int)
    ensures ListOf(Cleaned(pending, now), key) == Live(ListOf(pending, key), now)
  {
  }

  lemma NothingLive(now: int)
    ensures Live([], now) == []
  {
  }

  lemma AnsweredKeepsOrder(list: seq<Request>, clock: int)
    requires InTimeOrder(list, clock)
    ensures InTimeOrder(Answered(list).rest, clock) && |Answered(list).rest| <= |list|
  {
    hide First, InTimeOrder, Without;
    var manual := First(list, true);
    if manual >= 0 {
      WithoutKeepsOrder(list, manual, clock);
    }
    var list' := if manual >= 0 then Without(list, manual) else list;
    var panel := First(list', false);
    if panel >= 0 {
      WithoutKeepsOrder(list', panel, clock);
    }
  }

  lemma ListIsSound(pending: map<Key, seq<Request>>, key: Key, clock: int)
    requires Sound(pending, clock)
    ensures InTimeOrder(ListOf(pending, key), clock) && |ListOf(pending, key)| <= MAX_PENDING
  {
  }

  lemma SavedIsSound(pending: map<Key, seq<Request>>, key: Key, list: seq<Request>, clock: int)
    requires Sound(pending, clock) && InTimeOrder(list, clock) && |list| <= MAX_PENDING
    ensures Sound(Saved(pending, key, list), clock)
    ensures ListOf(Saved(pending, key, list), key) == list
    ensures forall other :: other != key ==> ListOf(Saved(pending, key, list), other) == ListOf(pending, other)
  {
    hide InTimeOrder;
  }

  lemma WithoutKeepsOrder(list: seq<Request>, i: nat, clock: int)
    requires i < |list| && InTimeOrder(list, clock)
    ensures InTimeOrder(Without(list, i), clock)
  {
  }

  /** The airport's place in the plan; the departure wins. */
  function RoleIn(plan: Plan, icao: string): Role {
    var code := NormalizeIcao(icao);
    if code == "" then NoRole
    else if plan.departure == code then Departure
    else if plan.destination == code then Destination
    else NoRole
  }

  lemma PlaceInThePlan(plan: Plan, icao: string)
    ensures var code := NormalizeIcao(icao);
      && (RoleIn(plan, icao) == Departure <==> code != "" && plan.departure == code)
      && (RoleIn(plan, icao) == Destination <==> code != "" && plan.departure != code && plan.destination == code)
  {
  }

  /** What the panel is handed for the request a reply answers. */
  function Handed(plan: Plan, reply: Reply, request: Option<Request>, now: int): seq<Delivery> {
    if request.None? then []
    else
      var role := if request.value.role.NoRole? then RoleIn(plan, reply.icao) else request.value.role;
      if role.NoRole? then [] else [Delivery(role.Destination?, reply.kind, reply.icao, reply.text, now)]
  }

  lemma BoundedOne(r: Request)
    ensures Bounded([] + [r]) == [r]
  {
  }

  lemma HandledOne(before: map<Key, seq<Request>>, after: map<Key, seq<Request>>, ds: seq<Delivery>, ds': seq<Delivery>,
                   plan: Plan, reply: Reply, r: Request, now: int, hidden: bool)
    requires Handled(before, after, ds, ds', plan, reply, now, hidden)
    requires ListOf(before, Key(reply.kind, reply.icao)) == [r] && !r.source.Manual? && !r.role.NoRole?
    ensures hidden <==> now - r.requestedAt <= 120_000
    ensures ds' == ds + if now - r.requestedAt <= 120_000
      then [Delivery(r.role == Destination, reply.kind, reply.icao, reply.text, now)] else []
  {
    hide Handled, Picks, Queue;
    HandledAnswersOldest(before, after, ds, ds', plan, reply, now, hidden);
    var key := Key(reply.kind, reply.icao);
    var typed: seq<Request>, panel: seq<Request> :|
      && Picks([r], typed, WaitingAt(now, true)) && Picks([r], panel, WaitingAt(now, false))
      && Queue(ListOf(after, key), true) == (if typed == [] then [] else typed[1..])
      && Queue(ListOf(after, key), false) == (if panel == [] then [] else panel[1..])
      && (hidden <==> typed == [] && panel != [])
      && ds' == ds + if panel == [] then [] else Handed(plan, reply, Some(panel[0]), now);
    PicksOfOne(r, typed, WaitingAt(now, true));
    PicksOfOne(r, panel, WaitingAt(now, false));
  }

  /** A request of the page names the slot; one that names none is for the
    * airport's place in the plan. */
  lemma HandedByRole(plan: Plan, reply: Reply, r: Request, now: int)
    ensures r.role != NoRole ==>
      Handed(plan, reply, Some(r), now) == [Delivery(r.role == Destination, reply.kind, reply.icao, reply.text, now)]
    ensures var code := NormalizeIcao(reply.icao);
      r.role == NoRole && code != "" ==>
        Handed(plan, reply, Some(r), now) ==
          if plan.departure == code then [Delivery(false, reply.kind, reply.icao, reply.text, now)]
          else if plan.destination == code then [Delivery(true, reply.kind, reply.icao, reply.text, now)]
          else []
  {
    hide NormalizeIcao;
    PlaceInThePlan(plan, reply.icao);
  }

  lemma NothingHanded(plan: Plan, reply: Reply, now: int)
    ensures Handed(plan, reply, None, now) == []
  {
  }

  /** One reply: expired requests go, its own list is answered, other lists
    * are left alone, and only the answered panel request reaches the slots. */
  ghost predicate Handled(before: map<Key, seq<Request>>, after: map<Key, seq<Request>>,
                          ds: seq<Delivery>, ds': seq<Delivery>,
                          plan: Plan, reply: Reply, now: int, hidden: bool)
  {
    var key := Key(reply.kind, reply.icao);
    var answer := Answered(Live(ListOf(before, key), now));
    && ListOf(after, key) == answer.rest
    && hidden == answer.hidden
    && ds' == ds + Handed(plan, reply, answer.panel, now)
    && forall other :: other != key ==> ListOf(after, other) == Live(ListOf(before, other), now)
  }

  /** The same without the steps: among the requests of its kind and airport
    * that are at most two minutes old, the reply answers the oldest typed one
    * and the oldest of the panel, the panel gets the report for the latter,
    * and the message is hidden exactly when only the panel was waiting. */
  ghost predicate AnswersOldest(before: seq<Request>, after: seq<Request>, ds: seq<Delivery>, ds': seq<Delivery>,
                                plan: Plan, reply: Reply, now: int, hidden: bool)
  {
    exists typed: seq<Request>, panel: seq<Request> ::
      && Picks(before, typed, WaitingAt(now, true)) && Picks(before, panel, WaitingAt(now, false))
      && Queue(after, true) == (if typed == [] then [] else typed[1..])
      && Queue(after, false) == (if panel == [] then [] else panel[1..])
      && (hidden <==> typed == [] && panel != [])
      && ds' == ds + if panel == [] then [] else Handed(plan, reply, Some(panel[0]), now)
  }

  lemma HandledAnswersOldest(before: map<Key, seq<Request>>, after: map<Key, seq<Request>>,
                             ds: seq<Delivery>, ds': seq<Delivery>, plan: Plan, reply: Reply, now: int, hidden: bool)
    requires Handled(before, after, ds, ds', plan, reply, now, hidden)
    ensures var key := Key(reply.kind, reply.icao);
      AnswersOldest(ListOf(before, key), ListOf(after, key), ds, ds', plan, reply, now, hidden)
    ensures forall other :: other != Key(reply.kind, reply.icao) ==>
      Picks(ListOf(before, other), ListOf(after, other), YoungAt(now))
  {
    hide Live, Queue, Answered, Handed, Picks, ListOf;
    var key := Key(reply.kind, reply.icao);
    var list := ListOf(before, key);
    var live := Live(list, now);
    QueuesOfYoungRequests(list, now, true);
    QueuesOfYoungRequests(list, now, false);
    ReplyAnswersTheOldest(live);
    NothingHanded(plan, reply, now);
    var typed, panel := Queue(live, true), Queue(live, false);
    assert Picks(list, typed, WaitingAt(now, true)) && Picks(list, panel, WaitingAt(now, false));
    assert AnswersOldest(list, ListOf(after, key), ds, ds', plan, reply, now, hidden);
    forall other | other != key
      ensures Picks(ListOf(before, other), ListOf(after, other), YoungAt(now))
    {
      YoungRequestsStay(ListOf(before, other), now);
    }
  }

  /** Of a list with one request at most that one is picked. */
  lemma PicksOfOne(r: Request, after: seq<Request>, keep: Request -> bool)
    requires Picks([r], after, keep)
    ensures after == if keep(r) then [r] else []
  {
    var at: seq<nat> :| PickedAt([r], after, at) && KeepsThose([r], at, keep);
    if at != [] {
      assert at[0] == 0 && at[0] in at;
    }
    PickedIsNoLonger([r], after, at);
    assert 0 in at <==> keep([r][0]);
  }

  class WeatherMatcher {
    var pending: map<Key, seq<Request>>
    const state: AppState
    ghost var clock: int

    ghost predicate Valid()
      reads this, state
    {
      && Sound(pending, clock)
      && state.clock <= clock
      && state.Valid()
    }

    constructor (state: AppState, now: int)
      requires state.clock <= now
      requires state.Valid()
      ensures Valid() && this.state == state && pending == map[] && clock == now
    {
      pending := map[];
      this.state := state;
      clock := now;
    }

    /** Drops every request that has waited longer than two minutes. */
    method CleanupPendingWeatherRequests(now: int)
      modifies this`pending
      ensures pending == Cleaned(old(pending), now)
      ensures forall key :: Picks(ListOf(old(pending), key), ListOf(pending, key), YoungAt(now))
      ensures forall key <- pending :: pending[key] != []
    {
      hide Live;
      ghost var before := pending;
      var todo := pending.Keys;
      while todo != {}
        invariant todo <= before.Keys
        invariant forall key <- todo :: key in pending && pending[key] == before[key]
        invariant forall key :: key !in todo ==>
          ListOf(pending, key) == ListOf(Cleaned(before, now), key) && (key in pending <==> key in Cleaned(before, now))
        decreases |todo|
      {
        var key :| key in todo;
        var live := Filter(pending[key], now);
        pending := Saved(pending, key, live);
        todo := todo - {key};
      }
      forall key
        ensures Picks(ListOf(before, key), ListOf(pending, key), YoungAt(now))
      {
        YoungRequestsStay(ListOf(before, key), now);
        CleanedList(before, key, now);
      }
    }

    /** `role` comes from the page's metadata. The oldest requests beyond
      * eight are forgotten. */
    method RememberPendingWeatherRequest(kind: Kind, icao: string, source: Source, role: Role, now: int)
      requires clock <= now
      requires Valid()
      modifies this
      ensures Valid() && clock == now
      ensures var key := Key(kind, Upper(icao));
        ListOf(pending, key) == Bounded(Live(ListOf(old(pending), key), now) + [Request(source, role, now)])
      ensures forall key :: key != Key(kind, Upper(icao)) ==>
        ListOf(pending, key) == Live(ListOf(old(pending), key), now)
    {
      hide Live, AppState.Valid, Upper, InTimeOrder, Bounded, Cleaned;
      CleanedIsSound(pending, clock, now);
      CleanupPendingWeatherRequests(now);
      clock := now;
      var key := Key(kind, Upper(icao));
      var list := ListOf(pending, key);
      NothingInOrder(now);
      NewestKeepsOrder(list, Request(source, role, now), now);
      pending := pending[key := Bounded(list + [Request(source, role, now)])];
    }

    /** The result says whether the message stays out of the chat. */
    method HandleWeatherReply(sender: string, text: string, now: int) returns (hidden: bool)
      requires clock <= now
      requires Valid()
      modifies this, state
      ensures Valid() && clock == (if ParsedReply(sender, text).None? then old(clock) else now)
      ensures state.flightPlan == old(state.flightPlan) && state.planSince == old(state.planSince)
      ensures ParsedReply(sender, text).None? ==>
        !hidden && pending == old(pending) && state.deliveries == old(state.deliveries)
      ensures ParsedReply(sender, text).Some? ==>
        Handled(old(pending), pending, old(state.deliveries), state.deliveries, state.flightPlan,
                ParsedReply(sender, text).value, now, hidden)
    {
      hide Live, AppState.Valid, Upper, Answered, Cleaned, Icao, InTimeOrder, Handed, ReadIcao, Trim;
      var parsed := ParsedReply(sender, text);
      if parsed.None? {
        return false;
      }
      var reply := parsed.value;
      IcaoIsNormal(reply.icao);
      CleanedIsSound(pending, clock, now);
      CleanupPendingWeatherRequests(now);
      clock := now;
      var panel: Option<Request>;
      panel, hidden := AnswerPending(Key(reply.kind, Upper(reply.icao)));
      if panel.Some? {
        UpdateWeatherPanel(reply, panel.value, now);
      } else {
        NothingHanded(state.flightPlan, reply, now);
      }
    }

    /** One panel request and, with no other request of its kind and airport
      * waiting, one reply: within two minutes the panel gets the report and the
      * message is hidden; later neither happens. */
    method RequestThenReply(icao: string, source: Source, role: Role, asked: int, sender: string, text: string,
                            answered: int)
        returns (hidden: bool)
      requires clock <= asked <= answered
      requires ParsedReply(sender, text).Some? && ParsedReply(sender, text).value.icao == icao
      requires !source.Manual? && !role.NoRole?
      requires ListOf(pending, Key(ParsedReply(sender, text).value.kind, icao)) == []
      requires Valid()
      modifies this, state
      ensures Valid()
      ensures hidden <==> answered - asked <= 120_000
      ensures var kind := ParsedReply(sender, text).value.kind;
        state.deliveries == old(state.deliveries)
          + if answered - asked <= 120_000 then [Delivery(role == Destination, kind, icao, Trim(text), answered)]
            else []
    {
      hide Live, Valid, Handled, ParsedReply, Trim, Cleaned, Bounded, Picks, Icao;
      var reply := ParsedReply(sender, text).value;
      IcaoIsNormal(icao);
      NothingLive(asked);
      ghost var r := Request(source, role, asked);
      RememberPendingWeatherRequest(reply.kind, icao, source, role, asked);
      assert ListOf(pending, Key(reply.kind, icao)) == [r] by { BoundedOne(r); }
      ghost var before, ds := pending, state.deliveries;
      hidden := HandleWeatherReply(sender, text, answered);
      HandledOne(before, pending, ds, state.deliveries, state.flightPlan, reply, r, answered, hidden);
    }

    /** Takes the answered requests off the list of one kind and airport. */
    method AnswerPending(key: Key) returns (panel: Option<Request>, hidden: bool)
      requires Sound(pending, clock)
      modifies this`pending
      ensures Sound(pending, clock)
      ensures var answer := Answered(ListOf(old(pending), key));
        ListOf(pending, key) == answer.rest && panel == answer.panel && hidden == answer.hidden
      ensures forall other :: other != key ==> ListOf(pending, other) == ListOf(old(pending), other)
    {
      hide First, InTimeOrder, Without, Saved, Sound;
      var list := ListOf(pending, key);
      ListIsSound(pending, key, clock);
      AnsweredKeepsOrder(list, clock);
      SavedIsSound(pending, key, Answered(list).rest, clock);
      var manualIndex := First(list, true);
      if manualIndex >= 0 {
        list := Without(list, manualIndex);
      }
      var panelIndex := First(list, false);
      if panelIndex >= 0 {
        panel := Some(list[panelIndex]);
        list := Without(list, panelIndex);
      } else {
        panel := None;
      }
      pending := Saved(pending, key, list);
      hidden := manualIndex < 0 && panelIndex >= 0;
    }

    /** The page's role decides; without one, the airport's place in the plan. */
    method UpdateWeatherPanel(reply: Reply, request: Request, now: int)
      requires clock == now
      requires Valid()
      modifies state
      ensures Valid()
      ensures state.flightPlan == old(state.flightPlan) && state.planSince == old(state.planSince)
      ensures state.deliveries == old(state.deliveries) + Handed(state.flightPlan, reply, Some(request), now)
    {
      hide AppState.Valid, Sound, NormalizeIcao;
      var role := request.role;
      if role.NoRole? {
        role := state.RoleForWeatherIcao(reply.icao);
      }
      if !role.NoRole? {
        var ok := state.UpdateWeather(role, reply.kind, reply.icao, reply.text, now);
      }
    }
  }

  method Filter(list: seq<Request>, now: int) returns (live: seq<Request>)
    ensures live == Live(list, now)
  {
    live := [];
    var i := |list|;
    assert list[i..] == [];
    while i > 0
      invariant 0 <= i <= |list|
      invariant live == Live(list[i..], now)
    {
      i := i - 1;
      assert list[i..][1..] == list[i + 1..];
      if list[i].requestedAt >= now - TTL_MS {
        live := [list[i]] + live;
      }
    }
    assert list[0..] == list;
  }
}
