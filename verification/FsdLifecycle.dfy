/** The session counter of the FSD proxy under every order of accept, connect and close events. */
module FsdLifecycle {
  import opened Options

  /** Sockets are named by the number of the socket pair they belong to, in order of acceptance. */
  datatype Life = Life(
    activeSessionId: nat,
    confirmedIvaoSessionId: nat,
    fsdCoreSocket: Option<nat>,
    ivaoSocket: Option<nat>,
    connected: bool,
    confirmations: nat,
    reports: seq<bool>  // the wasConnected values given to onClose
  )

  const START := Life(0, 0, None, None, false, 0, [])

  function AfterAccept(l: Life, pair: nat): (r: Life)
  {
    l.(activeSessionId := l.activeSessionId + 1, fsdCoreSocket := Some(pair), connected := true)
  }

  function AfterConnect(l: Life, pair: nat, id: nat): (r: Life)
  {
    if id != l.activeSessionId then l
    else l.(ivaoSocket := Some(pair), confirmedIvaoSessionId := id, confirmations := l.confirmations + 1)
  }

  function AfterClose(l: Life, id: nat): (r: Life)
  {
    if id != l.activeSessionId then l
    else Life(0, 0, None, None, false, l.confirmations, l.reports + [l.confirmedIvaoSessionId == id])
  }

  // ---------------------------------------------------------------------------
  // Runs
  // ---------------------------------------------------------------------------

  /** Each of the two sockets of a pair emits close once. */
  datatype Pair = Pair(id: nat, closesLeft: nat)

  /** What onClose was told: by the close of which pair, and which confirmation it answers when it says wasConnected. */
  datatype Report = Report(pair: nat, answers: Option<nat>)

  datatype System = System(
    life: Life,
    pairs: seq<Pair>,
    confirmed: seq<nat>,  // the pair of each confirmation
    told: seq<Report>  // one for each call of onClose
  )

  datatype Event =
    | Accept
    | Connect(pair: nat)  // the remote socket of the pair connects
    | SocketClose(pair: nat)  // one of its sockets closes
    | Reject(pair: nat)  // its data handler closes it

  const INITIAL := System(START, [], [], [])

  predicate Enabled(s: System, e: Event)
  {
    match e
    case Accept => true
    case Connect(p) => p < |s.pairs| && s.pairs[p].closesLeft > 0
    case SocketClose(p) => p < |s.pairs| && s.pairs[p].closesLeft > 0
    case Reject(p) => p < |s.pairs| && s.pairs[p].closesLeft > 0
  }

  function Closed(s: System, p: nat, left: nat): (r: System)
    requires p < |s.pairs|
  {
    var pair := s.pairs[p];
    var wasConnected := s.life.confirmedIvaoSessionId == pair.id && s.confirmed != [];
    System(AfterClose(s.life, pair.id), s.pairs[p := pair.(closesLeft := left)], s.confirmed,
      if pair.id != s.life.activeSessionId then s.told
      else s.told + [Report(p, if wasConnected then Some(|s.confirmed| - 1) else None)])
  }

  function Step(s: System, e: Event): (r: System)
    requires Enabled(s, e)
  {
    match e
    case Accept =>
      s.(life := AfterAccept(s.life, |s.pairs|), pairs := s.pairs + [Pair(s.life.activeSessionId + 1, 2)])
    case Connect(p) =>
      s.(life := AfterConnect(s.life, p, s.pairs[p].id),
         confirmed := if s.pairs[p].id == s.life.activeSessionId then s.confirmed + [p] else s.confirmed)
    case SocketClose(p) => Closed(s, p, s.pairs[p].closesLeft - 1)
    case Reject(p) => Closed(s, p, s.pairs[p].closesLeft)
  }

  ghost predicate Run(s: System, events: seq<Event>, t: System)
    decreases |events|
  {
    if events == [] then t == s
    else Enabled(s, events[0]) && Run(Step(s, events[0]), events[1..], t)
  }

  // ---------------------------------------------------------------------------
  // Every run: each report answers its own confirmation
  // ---------------------------------------------------------------------------

  /** Reports that say wasConnected answer different confirmations, later ones later confirmations; the confirmation
      that is remembered has not been answered, and was made by a pair with the remembered number. */
  ghost predicate Accounted(s: System)
  {
    && (forall p :: 0 <= p < |s.pairs| ==> s.pairs[p].id > 0)
    && |s.confirmed| == s.life.confirmations && |s.told| == |s.life.reports|
    && (forall i :: 0 <= i < |s.told| ==> (s.life.reports[i] <==> s.told[i].answers.Some?) && Answers(s, s.told[i]))
    && (forall i, j :: 0 <= i < j < |s.told| && s.told[i].answers.Some? && s.told[j].answers.Some? ==>
      s.told[i].answers.value < s.told[j].answers.value)
    && (s.life.confirmedIvaoSessionId > 0 ==>
      && s.confirmed != [] && s.confirmed[|s.confirmed| - 1] < |s.pairs|
      && s.pairs[s.confirmed[|s.confirmed| - 1]].id == s.life.confirmedIvaoSessionId
      && (forall i :: 0 <= i < |s.told| && s.told[i].answers.Some? ==> s.told[i].answers.value < |s.confirmed| - 1))
  }

  /** The report is about a pair, and what it answers is a confirmation of a pair with the same number. */
  ghost predicate Answers(s: System, r: Report)
  {
    && r.pair < |s.pairs|
    && (r.answers.Some? ==>
      && r.answers.value < |s.confirmed| && s.confirmed[r.answers.value] < |s.pairs|
      && s.pairs[s.confirmed[r.answers.value]].id == s.pairs[r.pair].id)
  }

  lemma StepAccounts(s: System, e: Event)
    requires Accounted(s) && Enabled(s, e)
    ensures Accounted(Step(s, e))
  {
    hide Accounted, Closed;
    match e
    case Accept => AcceptAccounts(s);
    case Connect(p) => ConnectAccounts(s, p);
    case SocketClose(p) => CloseAccounts(s, p, s.pairs[p].closesLeft - 1);
    case Reject(p) => CloseAccounts(s, p, s.pairs[p].closesLeft);
  }

  lemma AcceptAccounts(s: System)
    requires Accounted(s)
    ensures Accounted(Step(s, Accept))
  {
    var t := Step(s, Accept);
    assert forall q :: 0 <= q < |s.pairs| ==> t.pairs[q] == s.pairs[q];
  }

  lemma ConnectAccounts(s: System, p: nat)
    requires Accounted(s) && Enabled(s, Connect(p))
    ensures Accounted(Step(s, Connect(p)))
  {
    var t := Step(s, Connect(p));
    assert forall i :: 0 <= i < |s.confirmed| ==> t.confirmed[i] == s.confirmed[i];
  }

  lemma CloseAccounts(s: System, p: nat, left: nat)
    requires Accounted(s) && p < |s.pairs|
    ensures Accounted(Closed(s, p, left))
  {
    var t := Closed(s, p, left);
    assert forall q :: 0 <= q < |s.pairs| ==> t.pairs[q].id == s.pairs[q].id;
  }

  /** In every run a report that says wasConnected answers one confirmation of a pair with the number that was closed;
      no confirmation is answered twice, and they are answered in order. */
  lemma {:induction false} ReportsAnswerConfirmations(s: System, events: seq<Event>, t: System)
    requires Accounted(s) && Run(s, events, t)
    ensures Accounted(t)
    decreases |events|
  {
    hide Accounted, Step, Enabled;
    if events != [] {
      StepAccounts(s, events[0]);
      ReportsAnswerConfirmations(Step(s, events[0]), events[1..], t);
    }
  }

  lemma StartIsAccounted()
    ensures Accounted(INITIAL)
  {}

  // ---------------------------------------------------------------------------
  // Session numbers are used again: when that is harmless
  // ---------------------------------------------------------------------------

  /** No pair that can still close carries the number the next session will get. */
  ghost predicate NextIdIsFree(s: System)
  {
    forall p :: 0 <= p < |s.pairs| && s.pairs[p].closesLeft > 0 ==> s.pairs[p].id != s.life.activeSessionId + 1
  }

  /** A run in which that held at every accept. */
  ghost predicate CarefulRun(s: System, events: seq<Event>, t: System)
    decreases |events|
  {
    if events == [] then t == s
    else
      && Enabled(s, events[0]) && (events[0].Accept? ==> NextIdIsFree(s))
      && CarefulRun(Step(s, events[0]), events[1..], t)
  }

  /** Only the newest pair carries the active number. */
  ghost predicate Separate(s: System)
  {
    && (forall p :: 0 <= p < |s.pairs| ==> s.pairs[p].id > 0)
    && (s.life.activeSessionId > 0 ==>
      && s.pairs != [] && s.pairs[|s.pairs| - 1].id == s.life.activeSessionId
      && forall p :: 0 <= p < |s.pairs| - 1 && s.pairs[p].closesLeft > 0 ==> s.pairs[p].id != s.life.activeSessionId)
  }

  /** Pairs that reached onClose did so once, and the newest pair only if no session is active. */
  ghost predicate EffectiveOnce(s: System)
  {
    && (forall i, j :: 0 <= i < j < |s.told| ==> s.told[i].pair != s.told[j].pair)
    && (forall i :: 0 <= i < |s.told| ==>
      s.told[i].pair < if s.life.activeSessionId > 0 then |s.pairs| - 1 else |s.pairs|)
    && s.life.confirmedIvaoSessionId <= s.life.activeSessionId
    && (s.life.confirmedIvaoSessionId > 0 && s.life.confirmedIvaoSessionId == s.life.activeSessionId ==>
      s.confirmed != [] && s.confirmed[|s.confirmed| - 1] == |s.pairs| - 1)
    && (forall i :: 0 <= i < |s.told| && s.told[i].answers.Some? ==>
      s.told[i].answers.value < |s.confirmed| && s.confirmed[s.told[i].answers.value] == s.told[i].pair)
  }

  lemma CarefulStep(s: System, e: Event)
    requires Separate(s) && EffectiveOnce(s) && Enabled(s, e) && (e.Accept? ==> NextIdIsFree(s))
    ensures Separate(Step(s, e)) && EffectiveOnce(Step(s, e))
  {
    var t := Step(s, e);
    if !e.Accept? {
      assert |t.pairs| == |s.pairs|;
      assert forall p :: 0 <= p < |s.pairs| ==>
        t.pairs[p].id == s.pairs[p].id && t.pairs[p].closesLeft <= s.pairs[p].closesLeft;
    }
  }

  /** In a careful run an event of any pair but the newest changes nothing for the session that is active, and
      every pair reaches onClose at most once. */
  lemma {:induction false} StaleEventsAreHarmless(s: System, events: seq<Event>, t: System)
    requires Separate(s) && EffectiveOnce(s) && CarefulRun(s, events, t)
    ensures forall p :: 0 <= p < |t.pairs| - 1 && t.pairs[p].closesLeft > 0 && t.life.activeSessionId > 0 ==>
      && AfterClose(t.life, t.pairs[p].id) == t.life
      && AfterConnect(t.life, p, t.pairs[p].id) == t.life
    ensures forall i, j :: 0 <= i < j < |t.told| ==> t.told[i].pair != t.told[j].pair
    ensures forall i :: 0 <= i < |t.told| && t.told[i].answers.Some? ==>
      t.told[i].answers.value < |t.confirmed| && t.confirmed[t.told[i].answers.value] == t.told[i].pair
    decreases |events|
  {
    if events != [] {
      CarefulStep(s, events[0]);
      StaleEventsAreHarmless(Step(s, events[0]), events[1..], t);
    }
  }

  /** The condition is exact: after an accept, some older pair can still end the new session if and only if the number
      was not free. */
  lemma FreeIdIsExact(s: System)
    ensures NextIdIsFree(s) <==>
      var t := Step(s, Accept);
      forall p :: 0 <= p < |s.pairs| && Enabled(t, SocketClose(p)) ==> Step(t, SocketClose(p)).life == t.life
  {
    var t := Step(s, Accept);
    forall p | 0 <= p < |s.pairs| && s.pairs[p].closesLeft > 0
      ensures Enabled(t, SocketClose(p))
      ensures Step(t, SocketClose(p)).life == t.life <==> s.pairs[p].id != s.life.activeSessionId + 1
    {
      assert t.pairs[p] == s.pairs[p];
    }
  }

  /** The pair is active, and no other pair that can still do something carries its number. */
  ghost predicate Alone(s: System, p: nat)
  {
    && p < |s.pairs| && s.pairs[p].closesLeft == 2 && s.pairs[p].id == s.life.activeSessionId > 0
    && (forall q :: 0 <= q < |s.pairs| && q != p && s.pairs[q].closesLeft > 0 ==> s.pairs[q].id != s.pairs[p].id)
  }

  /** Neither a new session nor a close of the pair. */
  predicate LeavesOpen(e: Event, p: nat)
  {
    e != Accept && e != SocketClose(p) && e != Reject(p)
  }

  lemma OpenStep(s: System, p: nat, e: Event)
    requires Alone(s, p) && Enabled(s, e) && LeavesOpen(e, p)
    ensures Alone(Step(s, e), p)
    ensures var l, m := s.life, Step(s, e).life;
      && m.reports == l.reports && m.activeSessionId == l.activeSessionId
      && (m.confirmedIvaoSessionId == m.activeSessionId
          <==> l.confirmedIvaoSessionId == l.activeSessionId || e == Connect(p))
  {
    var t := Step(s, e);
    if e.SocketClose? || e.Reject? {
      assert forall q :: 0 <= q < |s.pairs| ==>
        t.pairs[q].id == s.pairs[q].id && t.pairs[q].closesLeft <= s.pairs[q].closesLeft;
    }
  }

  lemma {:induction false} WhileOpen(s: System, p: nat, events: seq<Event>, t: System)
    requires Alone(s, p) && Run(s, events, t) && forall i :: 0 <= i < |events| ==> LeavesOpen(events[i], p)
    ensures Alone(t, p)
    ensures var l, m := s.life, t.life;
      && m.reports == l.reports
      && (m.confirmedIvaoSessionId == m.activeSessionId
          <==> l.confirmedIvaoSessionId == l.activeSessionId || Connect(p) in events)
    decreases |events|
  {
    hide Step, Enabled, Alone;
    if events != [] {
      OpenStep(s, p, events[0]);
      WhileOpen(Step(s, events[0]), p, events[1..], t);
      assert events == [events[0]] + events[1..];
    }
  }

  /** Accepting begins an unconfirmed session with the next number and the new core socket; connecting its remote socket
      confirms it. */
  lemma SessionBegins(s: System)
    requires s.life.confirmedIvaoSessionId <= s.life.activeSessionId
    ensures var t, p := Step(s, Accept), |s.pairs|;
      && t.life.activeSessionId == s.life.activeSessionId + 1 && t.life.connected && t.life.fsdCoreSocket == Some(p)
      && t.life.confirmedIvaoSessionId != t.life.activeSessionId && Enabled(t, Connect(p))
      && var u := Step(t, Connect(p));
        && u.life.confirmedIvaoSessionId == u.life.activeSessionId == t.life.activeSessionId
        && u.life.ivaoSocket == Some(p) && u.life.confirmations == s.life.confirmations + 1
  {}

  /** A session that took a free number and is closed, by a socket or by its own data handler, reports wasConnected
      exactly when its remote socket had connected, whatever events of earlier pairs came between. */
  lemma CloseTellsWhetherConnected(s: System, events: seq<Event>, t: System)
    requires NextIdIsFree(s) && s.life.confirmedIvaoSessionId <= s.life.activeSessionId
    requires Run(Step(s, Accept), events, t)
    requires forall i :: 0 <= i < |events| ==> LeavesOpen(events[i], |s.pairs|)
    ensures var p := |s.pairs|;
      && Enabled(t, SocketClose(p)) && Enabled(t, Reject(p))
      && Step(t, SocketClose(p)).life.reports == s.life.reports + [Connect(p) in events]
      && Step(t, Reject(p)).life.reports == s.life.reports + [Connect(p) in events]
      && Step(t, SocketClose(p)).life.activeSessionId == 0 && !Step(t, SocketClose(p)).life.connected
  {
    var u, p := Step(s, Accept), |s.pairs|;
    assert Alone(u, p);
    WhileOpen(u, p, events, t);
  }

  /** What a caller can watch for: the counter restarts only when every socket has closed. */
  ghost predicate RestartsDrained(s: System, events: seq<Event>)
    decreases |events|
  {
    events == [] ||
    (Enabled(s, events[0])
     && (events[0].Accept? && s.life.activeSessionId == 0 ==>
       forall p :: 0 <= p < |s.pairs| ==> s.pairs[p].closesLeft == 0)
     && RestartsDrained(Step(s, events[0]), events[1..]))
  }

  /** Open pairs never carry a number above the active one. */
  ghost predicate Below(s: System)
  {
    s.life.activeSessionId > 0 ==>
      forall p :: 0 <= p < |s.pairs| && s.pairs[p].closesLeft > 0 ==> s.pairs[p].id <= s.life.activeSessionId
  }

  lemma {:induction false} DrainedRunsAreCareful(s: System, events: seq<Event>, t: System)
    requires Below(s) && Run(s, events, t) && RestartsDrained(s, events)
    ensures CarefulRun(s, events, t)
    decreases |events|
  {
    if events != [] {
      var u := Step(s, events[0]);
      if !events[0].Accept? {
        assert forall p :: 0 <= p < |s.pairs| ==>
          u.pairs[p].id == s.pairs[p].id && u.pairs[p].closesLeft <= s.pairs[p].closesLeft;
      }
      DrainedRunsAreCareful(u, events[1..], t);
    }
  }

  // ---------------------------------------------------------------------------
  // Runs that end the wrong session
  // ---------------------------------------------------------------------------

  function RunAll(s: System, events: seq<Event>): (t: System)
    decreases |events|
  {
    if events == [] || !Enabled(s, events[0]) then s else RunAll(Step(s, events[0]), events[1..])
  }

  /** The second close event of a pair arrives after the next accept: the new, confirmed session is reset. */
  lemma LateSecondCloseEndsNewSession()
    ensures var before := RunAll(INITIAL, [Accept, SocketClose(0), Accept, Connect(1)]);
      && before.life.activeSessionId == 1 && before.life.ivaoSocket == Some(1)
      && Enabled(before, SocketClose(0))
      && Step(before, SocketClose(0)).life == Life(0, 0, None, None, false, 1, [false, true])
  {
    var s1 := Step(INITIAL, Accept);
    var s2 := Step(s1, SocketClose(0));
    var s3 := Step(s2, Accept);
    var s4 := Step(s3, Connect(1));
    RunTwo(INITIAL, Accept, SocketClose(0), [Accept, Connect(1)]);
    RunTwo(s2, Accept, Connect(1), []);
  }

  /** With the number used again one pair can report two confirmations, its own and that of the session it ended. */
  lemma OnePairReportsTwice()
    ensures var t := RunAll(INITIAL, [Accept, Connect(0), SocketClose(0), Accept, Connect(1), SocketClose(0)]);
      t.told == [Report(0, Some(0)), Report(0, Some(1))] && t.confirmed == [0, 1] && t.pairs[1].closesLeft == 2
  {
    var s2 := Step(Step(INITIAL, Accept), Connect(0));
    var s4 := Step(Step(s2, SocketClose(0)), Accept);
    RunTwo(INITIAL, Accept, Connect(0), [SocketClose(0), Accept, Connect(1), SocketClose(0)]);
    RunTwo(s2, SocketClose(0), Accept, [Connect(1), SocketClose(0)]);
    RunTwo(s4, Connect(1), SocketClose(0), []);
    var s6 := Step(Step(s4, Connect(1)), SocketClose(0));
    assert RunAll(s6, []) == s6;
  }

  /** It is not enough that the pair which reset the counter has fully closed: a pair that was superseded earlier and is
      still open carries the same number. */
  lemma SupersededPairEndsNewSession()
    ensures var before := RunAll(INITIAL, [Accept, Accept, SocketClose(1), SocketClose(1), Accept, Connect(2)]);
      && before.life.activeSessionId == 1 && before.life.ivaoSocket == Some(2) && before.pairs[1].closesLeft == 0
      && Enabled(before, SocketClose(0))
      && Step(before, SocketClose(0)).life.activeSessionId == 0
  {
    var s2 := Step(Step(INITIAL, Accept), Accept);
    var s4 := Step(Step(s2, SocketClose(1)), SocketClose(1));
    RunTwo(INITIAL, Accept, Accept, [SocketClose(1), SocketClose(1), Accept, Connect(2)]);
    RunTwo(s2, SocketClose(1), SocketClose(1), [Accept, Connect(2)]);
    RunTwo(s4, Accept, Connect(2), []);
  }

  lemma RunOne(s: System, e: Event, rest: seq<Event>)
    requires Enabled(s, e)
    ensures RunAll(s, [e] + rest) == RunAll(Step(s, e), rest)
  {
    hide Step;
    assert ([e] + rest)[1..] == rest;
  }

  lemma RunTwo(s: System, e1: Event, e2: Event, rest: seq<Event>)
    requires Enabled(s, e1) && Enabled(Step(s, e1), e2)
    ensures RunAll(s, [e1, e2] + rest) == RunAll(Step(Step(s, e1), e2), rest)
  {
    hide RunAll, Step;
    assert [e1, e2] + rest == [e1] + ([e2] + rest);
    RunOne(s, e1, [e2] + rest);
    RunOne(Step(s, e1), e2, rest);
  }
}
