/** The disconnect alert of the proxy: a retry chain guarded by a generation number, with deliveries that may still be
    under way when the chain has ended. Times are milliseconds on a clock that never goes back. */
module DisconnectAlert {
  import opened Options
  import opened Selections

  const DELAY := 10_000
  const RETRY := 30_000
  const WINDOW := 30 * 60 * 1000
  const MAX_ATTEMPTS := 60

  /** A timer that will call deliverIvaoDisconnectAlert with the generation it was set for. */
  datatype Timer = Timer(generation: nat, due: nat)
  datatype Attempt = Attempt(generation: nat, at: nat)

  /** What became of a push delivery. Refused or timed out messages are Delivered with nothing sent; Failed is a
      rejection of the whole delivery, when the list of subscriptions cannot be stored. */
  datatype Outcome = Delivered(sent: nat, subscriptions: nat) | Failed

  datatype State = State(
    now: nat,
    generation: nat,
    deadline: nat,
    timer: Option<nat>,  // the timer the program remembers
    timers: map<nat, Timer>,  // all timers that are set
    nextTimer: nat,
    inFlight: multiset<nat>,  // generations of the deliveries under way
    attempts: seq<Attempt>,
    disconnects: map<nat, nat>,  // when the chain of a generation was started
    flight: nat  // the number of the current flight; 0 before the first
  )

  const START := State(0, 0, 0, None, map[], 0, multiset{}, [], map[], 0)

  // ---------------------------------------------------------------------------
  // The steps
  // ---------------------------------------------------------------------------

  function Cancel(s: State): (r: State)
  {
    s.(timers := if s.timer.Some? then s.timers - {s.timer.value} else s.timers,
       generation := s.generation + 1, timer := None, deadline := 0)
  }

  function Arm(s: State, generation: nat, due: nat): (r: State)
  {
    s.(timers := s.timers[s.nextTimer := Timer(generation, due)], timer := Some(s.nextTimer),
       nextTimer := s.nextTimer + 1)
  }

  function Schedule(s: State, subscriptions: nat, suppressed: bool): (r: State)
  {
    var c := Cancel(s);
    if subscriptions < 1 || suppressed then c
    else
      Arm(c.(deadline := c.now + WINDOW, disconnects := c.disconnects[c.generation := c.now]), c.generation,
          c.now + DELAY)
  }

  /** A timer calls back: the first half of deliverIvaoDisconnectAlert. */
  function Fire(s: State, id: nat, connected: bool): (r: State)
    requires id in s.timers
  {
    var generation := s.timers[id].generation;
    var t := s.(timers := s.timers - {id});
    if generation != t.generation then t
    else if connected || t.now > t.deadline then Cancel(t.(timer := None))
    else
      t.(timer := None, attempts := t.attempts + [Attempt(generation, t.now)],
         inFlight := t.inFlight + multiset{generation})
  }

  /** A delivery ends: the second half. A failed delivery skips the generation check. */
  function Finish(s: State, generation: nat, outcome: Outcome, connected: bool): (r: State)
  {
    var t := s.(inFlight := s.inFlight - multiset{generation});
    if outcome.Delivered? && generation != t.generation then t
    else if outcome.Delivered? && (outcome.sent > 0 || outcome.subscriptions < 1 || connected) then Cancel(t)
    else if t.now + RETRY > t.deadline then Cancel(t)
    else Arm(t, generation, t.now + RETRY)
  }

  /** A connection begins the next flight. */
  function Connect(s: State): (r: State)
  {
    Cancel(s).(flight := s.flight + 1)
  }

  /** The relay's watchdog reports that it has notified, for some flight. */
  function Receive(s: State, flight: nat): (r: State)
  {
    if flight == 0 || flight != s.flight then s else Cancel(s)
  }

  datatype Event =
    | Tick(now: nat)
    | Connected
    | Disconnected(subscriptions: nat, suppressed: bool)
    | Receipt(flight: nat)
    | Fires(id: nat, connected: bool)
    | Finishes(generation: nat, outcome: Outcome, connected: bool)

  /** The clock does not go back and timers are not early. */
  predicate Enabled(s: State, e: Event)
  {
    match e
    case Tick(now) => s.now <= now
    case Fires(id, _) => id in s.timers && s.timers[id].due <= s.now
    case Finishes(generation, _, _) => generation in s.inFlight
    case _ => true
  }

  function Step(s: State, e: Event): (r: State)
    requires Enabled(s, e)
  {
    match e
    case Tick(now) => s.(now := now)
    case Disconnected(n, suppressed) => Schedule(s, n, suppressed)
    case Connected => Connect(s)
    case Receipt(flight) => Receive(s, flight)
    case Fires(id, connected) => Fire(s, id, connected)
    case Finishes(generation, outcome, connected) => Finish(s, generation, outcome, connected)
  }

  ghost predicate Run(s: State, events: seq<Event>, t: State)
    decreases |events|
  {
    if events == [] then t == s
    else Enabled(s, events[0]) && Run(Step(s, events[0]), events[1..], t)
  }

  // ---------------------------------------------------------------------------
  // What every run keeps
  // ---------------------------------------------------------------------------

  /** At most one chain is alive: one timer of the current generation, or one delivery of it, never both. */
  ghost predicate OneChain(s: State)
  {
    && (forall i, j :: i in s.timers && j in s.timers ==>
      s.timers[i].generation == s.timers[j].generation == s.generation ==> i == j)
    && s.inFlight[s.generation] <= 1
    && (s.inFlight[s.generation] == 1 ==> forall i :: i in s.timers ==> s.timers[i].generation != s.generation)
  }

  ghost predicate Alive(s: State)
  {
    s.inFlight[s.generation] > 0 || exists i :: i in s.timers && s.timers[i].generation == s.generation
  }

  /** Generations are not invented, and a live chain belongs to a disconnect whose window is open. */
  ghost predicate Dated(s: State)
  {
    && (forall i :: i in s.timers ==> s.timers[i].generation <= s.generation && i < s.nextTimer)
    && (forall g :: g in s.inFlight ==> g <= s.generation)
    && (forall g :: g in s.disconnects ==> g <= s.generation && s.disconnects[g] <= s.now)
    && (Alive(s) ==> s.generation in s.disconnects && s.deadline == s.disconnects[s.generation] + WINDOW)
    && (s.timer.Some? ==> s.timer.value < s.nextTimer)
  }

  /** Attempts lie between ten seconds and thirty minutes after their disconnect, at least thirty seconds apart. */
  ghost predicate Spaced(s: State)
  {
    && (forall i :: 0 <= i < |s.attempts| ==>
      var a := s.attempts[i];
      && a.generation in s.disconnects
      && s.disconnects[a.generation] + DELAY <= a.at <= s.disconnects[a.generation] + WINDOW
      && a.at <= s.now)
    && (forall i, j :: 0 <= i < j < |s.attempts| && s.attempts[i].generation == s.attempts[j].generation ==>
      s.attempts[i].at + RETRY <= s.attempts[j].at)
  }

  /** A timer of the live chain is due no earlier than the next attempt may be. */
  ghost predicate NotEarly(s: State)
  {
    forall t :: t in s.timers && s.timers[t].generation == s.generation ==>
      && (s.generation in s.disconnects ==> s.disconnects[s.generation] + DELAY <= s.timers[t].due)
      && forall i :: 0 <= i < |s.attempts| && s.attempts[i].generation == s.generation ==>
        s.attempts[i].at + RETRY <= s.timers[t].due
  }

  ghost predicate Valid(s: State)
  {
    OneChain(s) && Dated(s) && Spaced(s) && NotEarly(s)
  }

  lemma CancelKeeps(s: State)
    requires Valid(s)
    ensures Valid(Cancel(s)) && !Alive(Cancel(s))
  {}

  lemma ScheduleKeeps(s: State, subscriptions: nat, suppressed: bool)
    requires Valid(s)
    ensures Valid(Schedule(s, subscriptions, suppressed))
  {
    CancelKeeps(s);
    var c := Cancel(s);
    assert forall i :: 0 <= i < |c.attempts| ==> c.attempts[i].generation != c.generation by {
      forall i | 0 <= i < |s.attempts|
        ensures s.attempts[i].generation <= s.generation
      {
        assert s.attempts[i].generation in s.disconnects;
      }
    }
  }

  lemma FireKeeps(s: State, id: nat, connected: bool)
    requires Valid(s) && id in s.timers && s.timers[id].due <= s.now
    ensures Valid(Fire(s, id, connected))
  {
    var generation := s.timers[id].generation;
    var t := s.(timers := s.timers - {id});
    assert Valid(t);
    if generation == s.generation {
      assert Alive(s);
      if connected || t.now > t.deadline { CancelKeeps(t.(timer := None)); }
    }
  }

  /** Setting a timer is safe when no chain is alive, or for an old generation. */
  lemma ArmKeeps(s: State, generation: nat, due: nat)
    requires Valid(s) && generation <= s.generation && s.now + RETRY <= due
    requires generation == s.generation ==>
      !Alive(s) && generation in s.disconnects && s.deadline == s.disconnects[generation] + WINDOW
    ensures Valid(Arm(s, generation, due))
  {}

  lemma FinishKeeps(s: State, generation: nat, outcome: Outcome, connected: bool)
    requires Valid(s) && generation in s.inFlight
    ensures Valid(Finish(s, generation, outcome, connected))
  {
    hide Spaced, NotEarly, Arm, Cancel;
    var t := s.(inFlight := s.inFlight - multiset{generation});
    LandKeeps(s, generation);
    CancelKeeps(t);
    if (outcome.Failed? || generation == t.generation) && t.now + RETRY <= t.deadline {
      ArmKeeps(t, generation, t.now + RETRY);
    }
  }

  lemma LandKeeps(s: State, generation: nat)
    requires Valid(s) && generation in s.inFlight
    ensures var t := s.(inFlight := s.inFlight - multiset{generation});
      && Valid(t) && generation <= s.generation
      && (generation == s.generation ==>
        !Alive(t) && generation in t.disconnects && t.deadline == t.disconnects[generation] + WINDOW)
  {
    if generation == s.generation { assert Alive(s); }
  }

  lemma StepKeeps(s: State, e: Event)
    requires Valid(s) && Enabled(s, e)
    ensures Valid(Step(s, e))
  {
    match e
    case Tick(_) =>
    case Disconnected(n, suppressed) => ScheduleKeeps(s, n, suppressed);
    case Connected => CancelKeeps(s);
    case Receipt(_) => CancelKeeps(s);
    case Fires(id, connected) => FireKeeps(s, id, connected);
    case Finishes(generation, outcome, connected) => FinishKeeps(s, generation, outcome, connected);
  }

  // ---------------------------------------------------------------------------
  // At most sixty attempts
  // ---------------------------------------------------------------------------

  function AttemptsOf(attempts: seq<Attempt>, generation: nat): (times: seq<nat>)
  {
    if attempts == [] then [] else
      var last := attempts[|attempts| - 1];
      AttemptsOf(attempts[..|attempts| - 1], generation) + if last.generation == generation then [last.at] else []
  }

  ghost predicate Apart(times: seq<nat>, start: nat)
  {
    && (forall i :: 0 <= i < |times| ==> start + DELAY <= times[i] <= start + WINDOW)
    && (forall i, j :: 0 <= i < j < |times| ==> times[i] + RETRY <= times[j])
  }

  function AsAttempts(generation: nat, times: seq<nat>): (attempts: seq<Attempt>)
  {
    seq(|times|, i requires 0 <= i < |times| => Attempt(generation, times[i]))
  }

  function Own(generation: nat): Attempt -> bool
  {
    (a: Attempt) => a.generation == generation
  }

  lemma OneAttemptMore(generation: nat, times: seq<nat>, at: nat)
    ensures AsAttempts(generation, times + [at]) == AsAttempts(generation, times) + [Attempt(generation, at)]
  {}

  /** They are the times of exactly the attempts of that generation, in order. */
  lemma {:induction false} TimesOfTheAttempts(attempts: seq<Attempt>, generation: nat)
    ensures Picks(attempts, AsAttempts(generation, AttemptsOf(attempts, generation)), Own(generation))
    decreases |attempts|
  {
    hide Picks, AsAttempts;
    if attempts == [] {
      PicksNothing(Own(generation));
      assert AsAttempts(generation, []) == [] by { NoAttempts(generation); }
    } else {
      var n := |attempts| - 1;
      var front, last := attempts[..n], attempts[n];
      TimesOfTheAttempts(front, generation);
      PicksSnoc(front, AsAttempts(generation, AttemptsOf(front, generation)), last, Own(generation));
      assert front + [last] == attempts;
      OneAttemptMore(generation, AttemptsOf(front, generation), last.at);
      assert AttemptsOf(front, generation) + [] == AttemptsOf(front, generation);
      assert Own(generation)(last) ==> last == Attempt(generation, last.at);
    }
  }

  lemma NoAttempts(generation: nat)
    ensures AsAttempts(generation, []) == []
  {}

  lemma {:induction false} AttemptsOfAreApart(attempts: seq<Attempt>, generation: nat, start: nat)
    requires forall i :: 0 <= i < |attempts| && attempts[i].generation == generation ==>
      start + DELAY <= attempts[i].at <= start + WINDOW
    requires forall i, j ::
      0 <= i < j < |attempts| && attempts[i].generation == attempts[j].generation == generation ==>
      attempts[i].at + RETRY <= attempts[j].at
    ensures Apart(AttemptsOf(attempts, generation), start)
    decreases |attempts|
  {
    if attempts != [] {
      var n := |attempts| - 1;
      AttemptsOfAreApart(attempts[..n], generation, start);
      if attempts[n].generation == generation {
        AttemptsOfAreEarlier(attempts[..n], generation, attempts[n].at);
      }
    }
  }

  lemma {:induction false} AttemptsOfAreEarlier(attempts: seq<Attempt>, generation: nat, at: nat)
    requires forall i :: 0 <= i < |attempts| && attempts[i].generation == generation ==> attempts[i].at + RETRY <= at
    ensures forall i ::
      0 <= i < |AttemptsOf(attempts, generation)| ==> AttemptsOf(attempts, generation)[i] + RETRY <= at
    decreases |attempts|
  {
    if attempts != [] {
      var n := |attempts| - 1;
      AttemptsOfAreEarlier(attempts[..n], generation, at);
    }
  }

  lemma {:induction false} ApartMeansFew(times: seq<nat>, start: nat)
    requires Apart(times, start)
    ensures |times| <= MAX_ATTEMPTS
    ensures times != [] ==> times[0] + RETRY * (|times| - 1) <= times[|times| - 1]
    decreases |times|
  {
    if |times| > 1 {
      ApartMeansFew(times[..|times| - 1], start);
      assert times[|times| - 2] + RETRY <= times[|times| - 1];
    }
  }

  /** In every run, one disconnect makes at most sixty attempts, the first at least ten seconds after it, any two at
      least thirty seconds apart, none after thirty minutes; and at most one chain is alive at the end. */
  lemma {:induction false} EveryRunIsSpaced(s: State, events: seq<Event>, t: State)
    requires Valid(s) && Run(s, events, t)
    ensures OneChain(t)
    ensures forall g :: g in t.disconnects ==>
      Apart(AttemptsOf(t.attempts, g), t.disconnects[g]) && |AttemptsOf(t.attempts, g)| <= 60
    decreases |events|
  {
    hide Step, Enabled, Apart;
    if events == [] {
      forall g | g in t.disconnects
        ensures Apart(AttemptsOf(t.attempts, g), t.disconnects[g]) && |AttemptsOf(t.attempts, g)| <= MAX_ATTEMPTS
      {
        AttemptsOfAreApart(t.attempts, g, t.disconnects[g]);
        ApartMeansFew(AttemptsOf(t.attempts, g), t.disconnects[g]);
      }
    } else {
      StepKeeps(s, events[0]);
      EveryRunIsSpaced(Step(s, events[0]), events[1..], t);
    }
  }

  lemma StartIsValid()
    ensures Valid(START)
  {}

  // ---------------------------------------------------------------------------
  // Ended chains
  // ---------------------------------------------------------------------------

  /** An event adds at most one attempt, and only for the generation that is current before and after it: a chain that
      was ended by a success, a cancel, a reconnect or a new disconnect makes no attempt any more. */
  lemma AttemptsAreCurrent(s: State, e: Event)
    requires Enabled(s, e)
    ensures var t := Step(s, e);
      && s.generation <= t.generation
      && (|| t.attempts == s.attempts
          || (t.attempts == s.attempts + [Attempt(s.generation, s.now)] && t.generation == s.generation))
  {}

  lemma {:induction false} EndedChainsAreSilent(s: State, events: seq<Event>, t: State, generation: nat)
    requires Run(s, events, t) && generation < s.generation
    ensures AttemptsOf(t.attempts, generation) == AttemptsOf(s.attempts, generation)
    decreases |events|
  {
    hide Step, Enabled;
    if events != [] {
      var u := Step(s, events[0]);
      AttemptsAreCurrent(s, events[0]);
      assert (s.attempts + [Attempt(s.generation, s.now)])[..|s.attempts|] == s.attempts;
      EndedChainsAreSilent(u, events[1..], t, generation);
    }
  }

  /** The events that end the current chain: a connection, a receipt for the current flight, a new disconnect; a timer
      that finds a connection or the window closed; and the end of the current delivery if it sent something, no
      subscription is left, or there is a connection. When thirty seconds more would pass the deadline, the end of the
      current delivery and of any failed one. */
  predicate Ends(s: State, e: Event)
  {
    match e
    case Tick(_) => false
    case Connected => true
    case Receipt(flight) => flight > 0 && flight == s.flight
    case Disconnected(_, _) => true
    case Fires(id, connected) =>
      id in s.timers && s.timers[id].generation == s.generation && (connected || s.now > s.deadline)
    case Finishes(generation, outcome, connected) =>
      || (&& generation == s.generation && outcome.Delivered?
          && (outcome.sent > 0 || outcome.subscriptions == 0 || connected))
      || ((generation == s.generation || outcome.Failed?) && s.now + 30_000 > s.deadline)
  }

  /** Exactly these move on to another generation. */
  lemma EndsExactly(s: State, e: Event)
    requires Enabled(s, e)
    ensures Step(s, e).generation > s.generation <==> Ends(s, e)
    ensures !Ends(s, e) ==> Step(s, e).generation == s.generation
    ensures Ends(s, e) ==> Step(s, e).attempts == s.attempts
  {}

  /** One timer of the generation, the remembered one, due then, and no delivery of it. */
  ghost predicate WaitsUntil(s: State, due: nat)
  {
    && s.inFlight[s.generation] == 0
    && s.timer.Some? && s.timer.value in s.timers && s.timers[s.timer.value] == Timer(s.generation, due)
    && forall i :: i in s.timers && i != s.timer.value ==> s.timers[i].generation != s.generation
  }

  /** A delivery of the current chain ends it when it sent something, when no subscription is left, when a connection
      is up, or when the next attempt would come too late; otherwise one retry waits for thirty seconds later. */
  lemma DeliveryEndsOrRetries(s: State, outcome: Outcome, connected: bool)
    requires Valid(s) && s.generation in s.inFlight
    ensures var t := Finish(s, s.generation, outcome, connected);
      var done := outcome.Delivered? && (outcome.sent > 0 || outcome.subscriptions == 0 || connected);
      if done || s.now + 30_000 > s.deadline then !Alive(t) && t.generation > s.generation
      else t.generation == s.generation && t.deadline == s.deadline && WaitsUntil(t, s.now + 30_000)
  {
    hide Spaced, NotEarly;
    var g := s.generation;
    var landed := s.(inFlight := s.inFlight - multiset{g});
    LandKeeps(s, g);
    var t := Finish(s, g, outcome, connected);
    if t.generation == g {
      assert s.nextTimer in t.timers && t.timers[s.nextTimer] == Timer(g, s.now + 30_000);
      assert forall i :: i in landed.timers ==> landed.timers[i].generation != g;
    } else {
      NobodyBeyond(landed);
    }
  }

  // Nothing belongs to a generation that has not begun.
  lemma NobodyBeyond(s: State)
    requires Dated(s)
    ensures !Alive(Cancel(s))
  {}

  /** A connection, a receipt for the current flight, and a disconnect that is suppressed or has no subscribers leave
      no chain; a receipt for another flight changes nothing; any other disconnect starts one chain ten seconds later,
      with a window of thirty minutes. */
  lemma WhatEndsAndBegins(s: State, flight: nat, subscriptions: nat, suppressed: bool)
    requires Valid(s)
    ensures !Alive(Connect(s)) && Connect(s).generation > s.generation && Connect(s).flight == s.flight + 1
    ensures if flight > 0 && flight == s.flight
      then !Alive(Receive(s, flight)) && Receive(s, flight).generation > s.generation else Receive(s, flight) == s
    ensures var t := Schedule(s, subscriptions, suppressed);
      && t.generation > s.generation
      && (if subscriptions == 0 || suppressed then !Alive(t)
          else WaitsUntil(t, s.now + 10_000) && t.deadline == s.now + 1_800_000)
  {
    hide Spaced, NotEarly;
    NobodyBeyond(s);
    var t := Schedule(s, subscriptions, suppressed);
    if subscriptions > 0 && !suppressed {
      assert s.nextTimer in t.timers && t.timers[s.nextTimer] == Timer(t.generation, s.now + 10_000);
    }
  }

  /** A timer of the current chain attempts a push unless a connection is up or the window has closed, which end the
      chain; a timer of an earlier chain does nothing. */
  lemma TimerAttemptsOrEnds(s: State, id: nat, connected: bool)
    requires Valid(s) && id in s.timers
    ensures var t, g := Fire(s, id, connected), s.timers[id].generation;
      if g != s.generation then t.attempts == s.attempts && t.generation == s.generation && t.inFlight == s.inFlight
      else if connected || s.now > s.deadline then !Alive(t) && t.generation > s.generation && t.attempts == s.attempts
      else t.attempts == s.attempts + [Attempt(g, s.now)] && t.generation == g && t.inFlight[g] == 1
  {
    hide Spaced, NotEarly;
    var t := s.(timers := s.timers - {id});
    if s.timers[id].generation == s.generation {
      assert Alive(s);
      NobodyBeyond(t.(timer := None));
    }
  }

  /** Over whole runs: once the current chain has been ended, by a success for instance, it attempts nothing any more.
      */
  lemma EndedForGood(s: State, e: Event, events: seq<Event>, t: State)
    requires Run(s, [e] + events, t) && Ends(s, e)
    ensures AttemptsOf(t.attempts, s.generation) == AttemptsOf(s.attempts, s.generation)
  {
    hide Step, Enabled, Ends;
    assert ([e] + events)[0] == e && ([e] + events)[1..] == events;
    EndsExactly(s, e);
    EndedChainsAreSilent(Step(s, e), events, t, s.generation);
  }

  /** A success is the last attempt. */
  lemma SuccessIsTheLastAttempt(s: State, sent: nat, subscriptions: nat, connected: bool, events: seq<Event>, t: State)
    requires sent > 0 && Run(s, [Finishes(s.generation, Delivered(sent, subscriptions), connected)] + events, t)
    ensures AttemptsOf(t.attempts, s.generation) == AttemptsOf(s.attempts, s.generation)
  {
    hide Run, AttemptsOf;
    EndedForGood(s, Finishes(s.generation, Delivered(sent, subscriptions), connected), events, t);
  }

  /** A delivery that ends after its chain has ended leaves the chain of a later disconnect alone, unless it failed
      and the later chain has less than thirty seconds left: then the missing generation check cancels that chain. */
  lemma LateDeliveryIsHarmlessUnless(s: State, generation: nat, outcome: Outcome, connected: bool)
    requires Valid(s) && generation in s.inFlight && generation < s.generation && Alive(s)
    ensures var t := Finish(s, generation, outcome, connected);
      && (Alive(t) <==> outcome.Delivered? || s.now + RETRY <= s.deadline)
      && (Alive(t) ==>
        && t.generation == s.generation && t.deadline == s.deadline
        && t.inFlight[s.generation] == s.inFlight[s.generation]
        && forall i :: i in s.timers ==> i in t.timers && t.timers[i] == s.timers[i])
  {
    hide Spaced, NotEarly;
    var u := s.(inFlight := s.inFlight - multiset{generation});
    LandKeeps(s, generation);
    CancelKeeps(u);
    var t := Finish(s, generation, outcome, connected);
    assert u.inFlight[s.generation] == s.inFlight[s.generation];
    if outcome.Delivered? || s.now + RETRY <= s.deadline {
      assert t.generation == s.generation;
      if s.inFlight[s.generation] == 0 {
        var i :| i in s.timers && s.timers[i].generation == s.generation;
        assert i in t.timers && t.timers[i] == s.timers[i];
      }
    }
  }

  /** Timers fire at the moment they are set for. */
  ghost predicate Punctual(s: State, events: seq<Event>)
    decreases |events|
  {
    events == [] ||
    (&& Enabled(s, events[0])
     && (events[0].Tick? ==> forall i :: i in s.timers ==> events[0].now <= s.timers[i].due)
     && (events[0].Fires? ==> s.timers[events[0].id].due == s.now)
     && Punctual(Step(s, events[0]), events[1..]))
  }

  // One punctual step.
  ghost predicate Leads(s: State, e: Event, u: State)
  {
    && Enabled(s, e) && Step(s, e) == u
    && (e.Tick? ==> forall i :: i in s.timers ==> e.now <= s.timers[i].due)
    && (e.Fires? ==> s.timers[e.id].due == s.now)
  }

  lemma RunOne(s: State, e: Event, u: State, events: seq<Event>, t: State)
    requires Leads(s, e, u) && Run(u, events, t) && Punctual(u, events)
    ensures Run(s, [e] + events, t) && Punctual(s, [e] + events)
  {
    hide Step, Enabled;
    assert ([e] + events)[1..] == events;
  }

  /** The first delivery hangs until the end. A second disconnect starts a chain whose own first delivery takes long and
      reaches nobody, so that its retry falls in the last thirty seconds of its window. */
  const HANGING: seq<Event> := [
    Disconnected(1, false), Tick(10_000), Fires(0, false),
    Disconnected(1, false), Tick(20_000), Fires(1, false),
    Tick(1_775_000), Finishes(2, Delivered(0, 1), false), Tick(1_781_000)]

  // The second chain has begun; the delivery of the first is under way.
  function Both(now: nat): State
  {
    State(now, 2, 1_810_000, Some(1), map[1 := Timer(2, 20_000)], 2, multiset{1}, [Attempt(1, 10_000)],
          map[1 := 0, 2 := 10_000], 0)
  }

  // The second chain waits for its retry.
  function Waiting(now: nat): State
  {
    State(now, 2, 1_810_000, Some(2), map[2 := Timer(2, 1_805_000)], 3, multiset{1},
          [Attempt(1, 10_000), Attempt(2, 20_000)], map[1 := 0, 2 := 10_000], 0)
  }

  const FIRST_SET := State(0, 1, 1_800_000, Some(0), map[0 := Timer(1, 10_000)], 1, multiset{}, [], map[1 := 0], 0)
  const FIRST_SENT := State(10_000, 1, 1_800_000, None, map[], 1, multiset{1}, [Attempt(1, 10_000)], map[1 := 0], 0)
  const BOTH_SENT := State(20_000, 2, 1_810_000, None, map[], 2, multiset{1, 2},
                           [Attempt(1, 10_000), Attempt(2, 20_000)], map[1 := 0, 2 := 10_000], 0)

  lemma FirstSteps()
    ensures Leads(START, Disconnected(1, false), FIRST_SET)
    ensures Leads(FIRST_SET, Tick(10_000), FIRST_SET.(now := 10_000))
  {}

  lemma FirstFires()
    ensures Leads(FIRST_SET.(now := 10_000), Fires(0, false), FIRST_SENT)
  {}

  lemma SecondBegins()
    ensures Leads(FIRST_SENT, Disconnected(1, false), Both(10_000))
    ensures Leads(Both(10_000), Tick(20_000), Both(20_000))
  {}

  lemma SecondFires()
    ensures Leads(Both(20_000), Fires(1, false), BOTH_SENT)
    ensures Leads(BOTH_SENT, Tick(1_775_000), BOTH_SENT.(now := 1_775_000))
  {}

  lemma SecondRetries()
    ensures Leads(BOTH_SENT.(now := 1_775_000), Finishes(2, Delivered(0, 1), false), Waiting(1_775_000))
    ensures Leads(Waiting(1_775_000), Tick(1_781_000), Waiting(1_781_000))
  {
    assert multiset{1, 2} - multiset{2} == multiset{1};
  }

  lemma HangingRuns()
    ensures Run(START, HANGING, Waiting(1_781_000)) && Punctual(START, HANGING)
  {
    hide Leads, Run, Punctual, Both, Waiting;
    var t := Waiting(1_781_000);
    FirstSteps();
    FirstFires();
    SecondBegins();
    SecondFires();
    SecondRetries();
    RunNothing(t);
    RunOne(Waiting(1_775_000), HANGING[8], t, [], t);
    assert [HANGING[8]] + [] == HANGING[8..];
    RunOne(BOTH_SENT.(now := 1_775_000), HANGING[7], Waiting(1_775_000), HANGING[8..], t);
    RunTail(7);
    RunOne(BOTH_SENT, HANGING[6], BOTH_SENT.(now := 1_775_000), HANGING[7..], t);
    RunTail(6);
    RunOne(Both(20_000), HANGING[5], BOTH_SENT, HANGING[6..], t);
    RunTail(5);
    RunOne(Both(10_000), HANGING[4], Both(20_000), HANGING[5..], t);
    RunTail(4);
    RunOne(FIRST_SENT, HANGING[3], Both(10_000), HANGING[4..], t);
    RunTail(3);
    RunOne(FIRST_SET.(now := 10_000), HANGING[2], FIRST_SENT, HANGING[3..], t);
    RunTail(2);
    RunOne(FIRST_SET, HANGING[1], FIRST_SET.(now := 10_000), HANGING[2..], t);
    RunTail(1);
    RunOne(START, HANGING[0], FIRST_SET, HANGING[1..], t);
    RunTail(0);
    assert HANGING[0..] == HANGING;
  }

  lemma RunTail(i: nat)
    requires i < |HANGING|
    ensures [HANGING[i]] + HANGING[i + 1..] == HANGING[i..]
  {}

  lemma RunNothing(s: State)
    ensures Run(s, [], s) && Punctual(s, [])
  {}

  lemma {:induction false} RunIsValid(s: State, events: seq<Event>, t: State)
    requires Valid(s) && Run(s, events, t)
    ensures Valid(t)
    decreases |events|
  {
    hide Step, Enabled, Valid;
    if events != [] {
      StepKeeps(s, events[0]);
      RunIsValid(Step(s, events[0]), events[1..], t);
    }
  }

  /** In that run, with punctual timers, the failure of the first delivery cancels the retry of the second chain,
      which had still time left in its window. */
  lemma LateFailureEndsLaterChain() returns (s: State)
    ensures Run(START, HANGING, s) && Punctual(START, HANGING) && Valid(s)
    ensures Alive(s) && 1 in s.inFlight && s.generation == 2
    ensures s.timers == map[2 := Timer(2, 1_805_000)] && s.now < 1_805_000 < s.deadline
    ensures !Alive(Finish(s, 1, Failed, false)) && Finish(s, 1, Failed, false).timers == map[]
    ensures Alive(Finish(s, 1, Delivered(0, 1), false))
  {
    hide Valid, Run, Punctual;
    s := Waiting(1_781_000);
    HangingRuns();
    StartIsValid();
    RunIsValid(START, HANGING, s);
    assert s.timers[2].generation == s.generation;
    LateDeliveryIsHarmlessUnless(s, 1, Failed, false);
    LateDeliveryIsHarmlessUnless(s, 1, Delivered(0, 1), false);
  }

  // ---------------------------------------------------------------------------
  // Receipts of the watchdog
  // ---------------------------------------------------------------------------

  /** The run without the receipts that were for another flight than the current one. */
  ghost function Relevant(s: State, events: seq<Event>): (r: seq<Event>)
    decreases |events|
  {
    if events == [] || !Enabled(s, events[0]) then events else
      var rest := Relevant(Step(s, events[0]), events[1..]);
      if events[0].Receipt? && events[0].flight != s.flight then rest else [events[0]] + rest
  }

  /** In every run, receipts for earlier flights, however late and wherever they come in, change nothing: without them
      the run ends in the same state, with the same attempts. */
  lemma {:induction false} LateReceiptsDoNotMatter(s: State, events: seq<Event>, t: State)
    requires Run(s, events, t)
    ensures Run(s, Relevant(s, events), t)
    decreases |events|
  {
    hide Enabled, Fire, Finish, Schedule;
    if events != [] {
      var u := Step(s, events[0]);
      LateReceiptsDoNotMatter(u, events[1..], t);
      if events[0].Receipt? && events[0].flight != s.flight {
        assert u == s;
      } else {
        var rest := Relevant(u, events[1..]);
        assert ([events[0]] + rest)[1..] == rest;
      }
    }
  }

  /** So once a later flight has begun, receipts for it are the only ones that can end a chain. */
  lemma {:induction false} FlightsOnlyGrow(s: State, events: seq<Event>, t: State)
    requires Run(s, events, t)
    ensures s.flight <= t.flight
    ensures forall i {:trigger events[i]} :: 0 <= i < |events| && events[i].Receipt? && events[i].flight < s.flight ==>
      events[i] !in Relevant(s, events)
    decreases |events|
  {
    hide Enabled, Fire, Finish, Schedule;
    if events != [] {
      var u := Step(s, events[0]);
      FlightsOnlyGrow(u, events[1..], t);
      FlightsStepUp(s, events[0]);
      forall i {:trigger events[i]} | 0 <= i < |events| && events[i].Receipt? && events[i].flight < s.flight
        ensures events[i] !in Relevant(s, events)
      {
        NotRelevant(u, events[1..], t, events[i]);
      }
    }
  }

  lemma FlightsStepUp(s: State, e: Event)
    requires Enabled(s, e)
    ensures s.flight <= Step(s, e).flight
  {}

  lemma {:induction false} NotRelevant(s: State, events: seq<Event>, t: State, e: Event)
    requires Run(s, events, t) && e.Receipt? && e.flight < s.flight
    ensures e !in Relevant(s, events)
    decreases |events|
  {
    hide Enabled, Step;
    if events != [] {
      FlightsStepUp(s, events[0]);
      NotRelevant(Step(s, events[0]), events[1..], t, e);
    }
  }

  // ---------------------------------------------------------------------------
  // The program
  // ---------------------------------------------------------------------------

  class DisconnectAlerts {
    var now: nat
    var generation: nat
    var deadline: nat
    var timer: Option<nat>
    var timers: map<nat, Timer>
    var nextTimer: nat
    var inFlight: multiset<nat>
    var attempts: seq<Attempt>
    var disconnects: map<nat, nat>

    // The watchdog state: the id of the current flight, and the ids of all flights so far, in order.
    var armed: bool
    var sessionId: string
    ghost var flights: seq<string>

    ghost function Current(): State
      reads `now, `generation, `deadline, `timer, `timers, `nextTimer, `inFlight, `attempts, `disconnects, `flights
    {
      State(now, generation, deadline, timer, timers, nextTimer, inFlight, attempts, disconnects, |flights|)
    }

    ghost predicate Flying()
      reads `sessionId, `flights
    {
      && "" !in flights && (forall i, j :: 0 <= i < j < |flights| ==> flights[i] != flights[j])
      && sessionId == if flights == [] then "" else flights[|flights| - 1]
    }

    constructor ()
      ensures Current() == START && Flying() && !armed
    {
      now, generation, deadline, timer, timers, nextTimer := 0, 0, 0, None, map[], 0;
      inFlight, attempts, disconnects := multiset{}, [], map[];
      armed, sessionId, flights := false, "", [];
    }

    method CancelIvaoDisconnectAlert()
      modifies `generation, `deadline, `timer, `timers
      ensures Current() == Cancel(old(Current()))
    {
      generation := generation + 1;
      if timer.Some? { timers := timers - {timer.value}; }
      timer := None;
      deadline := 0;
    }

    method SetTimeout(g: nat, delay: nat)
      modifies `timer, `timers, `nextTimer
      ensures Current() == Arm(old(Current()), g, old(now) + delay)
    {
      timers := timers[nextTimer := Timer(g, now + delay)];
      timer := Some(nextTimer);
      nextTimer := nextTimer + 1;
    }

    method ScheduleIvaoDisconnectAlert(subscriptionCount: nat, suppressed: bool)
      modifies `generation, `deadline, `timer, `timers, `nextTimer, `disconnects
      ensures Current() == Schedule(old(Current()), subscriptionCount, suppressed)
    {
      CancelIvaoDisconnectAlert();
      if subscriptionCount < 1 { return; }
      if suppressed { return; }
      var g := generation;
      deadline := now + WINDOW;
      disconnects := disconnects[g := now];
      SetTimeout(g, DELAY);
    }

    method DeliverIvaoDisconnectAlert(id: nat, connected: bool)
      requires id in timers
      modifies `generation, `deadline, `timer, `timers, `inFlight, `attempts
      ensures Current() == Fire(old(Current()), id, connected)
    {
      var g := timers[id].generation;
      timers := timers - {id};
      if g != generation { return; }
      timer := None;
      if connected {
        CancelIvaoDisconnectAlert();
        return;
      }
      if now > deadline {
        CancelIvaoDisconnectAlert();
        return;
      }
      attempts := attempts + [Attempt(g, now)];
      inFlight := inFlight + multiset{g};
    }

    method DeliveryEnds(g: nat, outcome: Outcome, connected: bool)
      requires g in inFlight
      modifies `generation, `deadline, `timer, `timers, `nextTimer, `inFlight
      ensures Current() == Finish(old(Current()), g, outcome, connected)
    {
      inFlight := inFlight - multiset{g};
      if outcome.Delivered? {
        if g != generation { return; }
        if outcome.sent > 0 || outcome.subscriptions < 1 || connected {
          CancelIvaoDisconnectAlert();
          return;
        }
      }
      if now + RETRY > deadline {
        CancelIvaoDisconnectAlert();
        return;
      }
      SetTimeout(g, RETRY);
    }

    /** A new flight: its id has not been used before. */
    method HandleIvaoConnected(flight: string)
      requires Flying() && flight != "" && flight !in flights
      modifies `generation, `deadline, `timer, `timers, `armed, `sessionId, `flights
      ensures Flying() && Current() == Connect(old(Current()))
      ensures armed && sessionId == flight && flights == old(flights) + [flight]
    {
      CancelIvaoDisconnectAlert();
      armed, sessionId, flights := true, flight, flights + [flight];
    }

    /** A receipt of the relay watchdog cancels the alert only for the current flight. */
    method HandleAgentWatchdogFired(flight: string)
      requires Flying()
      modifies `generation, `deadline, `timer, `timers
      ensures Current() == Receive(old(Current()), Number(flights, flight))
    {
      NumberOfLast(flights, flight);
      if flight == "" || flight != sessionId { return; }
      CancelIvaoDisconnectAlert();
    }
  }

  /** The number of the flight with an id; 0 when there is none. */
  ghost function Number(flights: seq<string>, id: string): (n: nat)
    ensures n <= |flights|
    ensures n > 0 ==> flights[n - 1] == id
    ensures id in flights ==> n > 0
  {
    if flights == [] then 0
    else if flights[|flights| - 1] == id then |flights|
    else Number(flights[..|flights| - 1], id)
  }

  lemma NumberOfLast(flights: seq<string>, id: string)
    ensures flights != [] ==> (Number(flights, id) == |flights| <==> id == flights[|flights| - 1])
    ensures flights == [] ==> Number(flights, id) == 0
  {}
}
