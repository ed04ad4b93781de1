/** The two rate limiters: a sliding log of accepted remote commands for each
  * command type, and a fixed window that counts local browser messages. */
module RateLimits {
  import opened Selections

  /** The entries of `log` in the closed interval from `lo` to `hi`. */
  function Within(log: seq<int>, lo: int, hi: int): (r: seq<int>)
    ensures |r| <= |log|
  {
    if log == [] then []
    else
      var rest := Within(log[..|log| - 1], lo, hi);
      var last := log[|log| - 1];
      if lo <= last <= hi then rest + [last] else rest
  }

  function Between(lo: int, hi: int): int -> bool {
    (t: int) => lo <= t <= hi
  }

  /** Exactly these entries, each as often and in the same order. */
  lemma {:induction false} WithinIsExact(log: seq<int>, lo: int, hi: int)
    ensures Picks(log, Within(log, lo, hi), Between(lo, hi))
    decreases |log|
  {
    hide Picks;
    if log == [] {
      PicksNothing(Between(lo, hi));
    } else {
      var n := |log| - 1;
      WithinIsExact(log[..n], lo, hi);
      PicksSnoc(log[..n], Within(log[..n], lo, hi), log[n], Between(lo, hi));
      assert log[..n] + [log[n]] == log;
    }
  }

  predicate UpTo(log: seq<int>, now: int) {
    forall i :: 0 <= i < |log| ==> log[i] <= now
  }

  predicate Ordered(log: seq<int>) {
    forall i, j :: 0 <= i <= j < |log| ==> log[i] <= log[j]
  }

  lemma WithinSnoc(log: seq<int>, last: int, lo: int, hi: int)
    ensures Within(log + [last], lo, hi) == Within(log, lo, hi) + (if lo <= last <= hi then [last] else [])
  {
    assert (log + [last])[..|log|] == log;
  }

  lemma {:induction false} NarrowerHoldsLess(log: seq<int>, lo: int, hi: int, lo': int, hi': int)
    requires lo <= lo' && hi' <= hi
    ensures |Within(log, lo', hi')| <= |Within(log, lo, hi)|
    decreases |log|
  {
    if log != [] {
      NarrowerHoldsLess(log[..|log| - 1], lo, hi, lo', hi');
    }
  }

  /** Entries after the last one do not matter to an ordered log. */
  lemma {:induction false} NothingAfterTheLast(log: seq<int>, lo: int, hi: int, now: int)
    requires now <= hi && UpTo(log, now)
    ensures Within(log, lo, hi) == Within(log, lo, now)
    decreases |log|
  {
    if log != [] {
      NothingAfterTheLast(log[..|log| - 1], lo, hi, now);
      assert log[|log| - 1] <= now;
    }
  }

  /** Dropping what is older than one bound and then what is older than a
    * later bound is dropping by the later bound. */
  lemma {:induction false} DropTwice(log: seq<int>, lo: int, lo': int, hi: int, hi': int)
    requires lo <= lo' && hi <= hi' && UpTo(log, hi)
    ensures Within(Within(log, lo, hi), lo', hi') == Within(log, lo', hi')
    decreases |log|
  {
    if log != [] {
      var front, last := log[..|log| - 1], log[|log| - 1];
      DropTwice(front, lo, lo', hi, hi');
      assert log == front + [last];
      WithinSnoc(front, last, lo, hi);
      WithinSnoc(Within(front, lo, hi), last, lo', hi');
    }
  }

  // ----- Sliding window: remote commands ---------------------------------------

  datatype Rule = Rule(windowMs: nat, max: nat)

  /** How many entries lie in the closed window that begins at `lo`. */
  function InWindow(rule: Rule, log: seq<int>, lo: int): nat {
    |Within(log, lo, lo + rule.windowMs)|
  }

  /** `accepted` is everything ever let through, in order. No window of the
    * rule's length, wherever it begins, holds more than its maximum, and
    * `log` is the part not yet forgotten at `clock`. */
  ghost predicate Limited(rule: Rule, accepted: seq<int>, log: seq<int>, clock: int) {
    && UpTo(accepted, clock)
    && (forall lo: int :: InWindow(rule, accepted, lo) <= rule.max)
    && |log| <= rule.max
    && (exists at: int :: at <= clock && Remembered(rule, accepted, log, at))
  }

  /** `log` is what the last pruning, at time `at`, left. */
  ghost predicate Remembered(rule: Rule, accepted: seq<int>, log: seq<int>, at: int) {
    && UpTo(accepted, at)
    && log == Within(accepted, at - rule.windowMs, at)
  }

  lemma Pruned(rule: Rule, accepted: seq<int>, log: seq<int>, clock: int, now: int)
    requires Limited(rule, accepted, log, clock) && clock <= now
    ensures Recent(log, now - rule.windowMs) == Within(accepted, now - rule.windowMs, now)
    ensures UpTo(accepted, now)
  {
    hide Within;
    var at :| at <= clock && Remembered(rule, accepted, log, at);
    DropTwice(accepted, at - rule.windowMs, now - rule.windowMs, at, now);
    assert UpTo(log, now) by {
      WithinBounded(accepted, at - rule.windowMs, at);
    }
    RecentIsWithin(log, now - rule.windowMs, now);
  }

  lemma {:induction false} WithinBounded(log: seq<int>, lo: int, hi: int)
    ensures UpTo(Within(log, lo, hi), hi)
    decreases |log|
  {
    if log != [] {
      WithinBounded(log[..|log| - 1], lo, hi);
    }
  }

  /** The entries of the log that are not older than `start`. */
  function Recent(log: seq<int>, start: int): seq<int> {
    if log == [] then []
    else
      var rest := Recent(log[..|log| - 1], start);
      var last := log[|log| - 1];
      if last >= start then rest + [last] else rest
  }

  lemma {:induction false} RecentIsWithin(log: seq<int>, start: int, now: int)
    requires UpTo(log, now)
    ensures Recent(log, start) == Within(log, start, now)
    decreases |log|
  {
    if log != [] {
      RecentIsWithin(log[..|log| - 1], start, now);
      assert log[|log| - 1] <= now;
    }
  }

  lemma RefusedStaysLimited(rule: Rule, accepted: seq<int>, log: seq<int>, clock: int, now: int)
    requires Limited(rule, accepted, log, clock) && clock <= now
    requires |Recent(log, now - rule.windowMs)| >= rule.max
    ensures Limited(rule, accepted, Recent(log, now - rule.windowMs), now)
  {
    hide Within, Recent;
    Pruned(rule, accepted, log, clock, now);
    assert Remembered(rule, accepted, Recent(log, now - rule.windowMs), now);
    assert InWindow(rule, accepted, now - rule.windowMs) <= rule.max;
  }

  lemma AcceptedStaysLimited(rule: Rule, accepted: seq<int>, log: seq<int>, clock: int, now: int)
    requires Limited(rule, accepted, log, clock) && clock <= now
    requires |Recent(log, now - rule.windowMs)| < rule.max
    ensures Limited(rule, accepted + [now], Recent(log, now - rule.windowMs) + [now], now)
  {
    hide Within, Recent;
    Pruned(rule, accepted, log, clock, now);
    var recent := Recent(log, now - rule.windowMs);
    var more := accepted + [now];
    WithinSnoc(accepted, now, now - rule.windowMs, now);
    assert Remembered(rule, more, recent + [now], now);
    forall lo: int
      ensures InWindow(rule, more, lo) <= rule.max
    {
      var hi := lo + rule.windowMs;
      WithinSnoc(accepted, now, lo, hi);
      assert InWindow(rule, accepted, lo) <= rule.max;
      if lo <= now <= hi {
        NothingAfterTheLast(accepted, lo, hi, now);
        NarrowerHoldsLess(accepted, now - rule.windowMs, now, lo, now);
      }
    }
  }

  /** The remote agent's limiter. `commandWindows` has a log for every type
    * that has been asked about. */
  class CommandLimiter {
    const rules: map<string, Rule>
    var commandWindows: map<string, seq<int>>
    /** Every accepted time of every type, and the latest time seen. */
    ghost var accepted: map<string, seq<int>>
    ghost var clock: int

    ghost function Log(kind: string): seq<int>
      reads this
    {
      if kind in commandWindows then commandWindows[kind] else []
    }

    ghost function Accepted(kind: string): seq<int>
      reads this
    {
      if kind in accepted then accepted[kind] else []
    }

    ghost predicate Valid()
      reads this
    {
      forall kind <- rules :: Limited(rules[kind], Accepted(kind), Log(kind), clock)
    }

    constructor (rules: map<string, Rule>, now: int)
      ensures Valid() && this.rules == rules && clock == now && accepted == map[]
    {
      this.rules := rules;
      commandWindows := map[];
      accepted := map[];
      clock := now;
      new;
      forall kind | kind in rules
        ensures Limited(rules[kind], Accepted(kind), Log(kind), clock)
      {
        assert Remembered(rules[kind], [], [], now);
      }
    }

    /** Accepts exactly when fewer than the maximum were accepted in the
      * closed window that ends now; types without a rule always pass. */
    method AllowCommand(kind: string, now: int) returns (ok: bool)
      requires clock <= now
      requires Valid()
      modifies this
      ensures Valid() && clock == now
      ensures ok <==>
        (kind in rules ==> InWindow(rules[kind], old(Accepted(kind)), now - rules[kind].windowMs) < rules[kind].max)
      ensures kind in rules ==> Accepted(kind) == old(Accepted(kind)) + (if ok then [now] else [])
      ensures forall other :: other != kind || kind !in rules ==>
        Accepted(other) == old(Accepted(other)) && Log(other) == old(Log(other))
    {
      hide Within, Recent, Limited;
      LaterClock(now);
      if kind !in rules {
        clock := now;
        return true;
      }
      var rule := rules[kind];
      var windowStart := now - rule.windowMs;
      var log := if kind in commandWindows then commandWindows[kind] else [];
      var recent := Filter(log, windowStart);
      Pruned(rule, Accepted(kind), log, clock, now);
      if |recent| >= rule.max {
        RefusedStaysLimited(rule, Accepted(kind), log, clock, now);
        commandWindows := commandWindows[kind := recent];
        clock := now;
        return false;
      }
      AcceptedStaysLimited(rule, Accepted(kind), log, clock, now);
      accepted := accepted[kind := Accepted(kind) + [now]];
      commandWindows := commandWindows[kind := recent + [now]];
      clock := now;
      return true;
    }

    lemma LaterClock(now: int)
      requires clock <= now
      requires Valid()
      ensures forall kind <- rules :: Limited(rules[kind], Accepted(kind), Log(kind), now)
    {
    }
  }

  method Filter(log: seq<int>, start: int) returns (recent: seq<int>)
    ensures recent == Recent(log, start)
  {
    recent := [];
    assert log[..|log|] == log;
    for i := 0 to |log|
      invariant recent == Recent(log[..i], start)
    {
      assert log[..i + 1][..i] == log[..i];
      if log[i] >= start {
        recent := recent + [log[i]];
      }
    }
  }

  // ----- Fixed window: local browser messages ----------------------------------

  /** The window that is open and the messages it has counted. */
  datatype Rate = Rate(windowStartMs: int, messages: nat)

  function Counted(rate: Rate, rule: Rule, now: int): Rate {
    if now - rate.windowStartMs > rule.windowMs then Rate(now, 1)
    else rate.(messages := rate.messages + 1)
  }

  /** The limiter after messages at `times`. A connection begins with an open
    * window and no messages. */
  function After(first: Rate, times: seq<int>, rule: Rule): (rate: Rate) {
    if times == [] then first else Counted(After(first, times[..|times| - 1], rule), rule, times[|times| - 1])
  }

  /** The times at which messages were let through. */
  function Admitted(first: Rate, times: seq<int>, rule: Rule): seq<int> {
    if times == [] then []
    else
      var earlier := Admitted(first, times[..|times| - 1], rule);
      if After(first, times, rule).messages <= rule.max then earlier + [times[|times| - 1]] else earlier
  }

  /** How many messages at `times` are let through in the interval of window
    * length that begins at `lo`. */
  function AdmittedIn(first: Rate, times: seq<int>, rule: Rule, lo: int): nat {
    InWindow(rule, Admitted(first, times, rule), lo)
  }

  /** Message times after `from`, on a clock that never goes back. */
  predicate Since(from: int, times: seq<int>) {
    Ordered(times) && forall i :: 0 <= i < |times| ==> from <= times[i]
  }

  function Min(a: int, b: int): int {
    if a < b then a else b
  }

  lemma AdmittedSnoc(first: Rate, times: seq<int>, rule: Rule, now: int)
    ensures After(first, times + [now], rule) == Counted(After(first, times, rule), rule, now)
    ensures Admitted(first, times + [now], rule)
         == if After(first, times + [now], rule).messages <= rule.max then Admitted(first, times, rule) + [now]
            else Admitted(first, times, rule)
  {
    assert (times + [now])[..|times|] == times;
  }

  /** One more message, seen from one interval. */
  lemma AdmittedInSnoc(first: Rate, times: seq<int>, rule: Rule, now: int, lo: int)
    ensures After(first, times + [now], rule) == Counted(After(first, times, rule), rule, now)
    ensures AdmittedIn(first, times + [now], rule, lo) == AdmittedIn(first, times, rule, lo)
         + if After(first, times + [now], rule).messages <= rule.max && lo <= now <= lo + rule.windowMs then 1 else 0
  {
    hide Within, Admitted, After;
    AdmittedSnoc(first, times, rule, now);
    WithinSnoc(Admitted(first, times, rule), now, lo, lo + rule.windowMs);
  }

  lemma NothingAdmitted(first: Rate, rule: Rule, lo: int)
    ensures AdmittedIn(first, [], rule, lo) == 0 && After(first, [], rule) == first
  {
  }

  // ----- Every interval of a connection

  /** The most messages any connection made at `c` gets through in the
    * interval of window length that begins at `lo`. The interval meets the
    * window that the connection opened and the next one; or it begins right
    * behind the first window, or with the connection, and meets one window;
    * or it is later, and then the message that opened the earlier of its two
    * windows lies in front of it. */
  function Peak(rule: Rule, c: int, lo: int): int {
    if lo + rule.windowMs < c then 0
    else if lo <= c then rule.max
    else if lo <= c + rule.windowMs then 2 * rule.max
    else if lo == c + rule.windowMs + 1 then rule.max
    else 2 * rule.max - 1
  }

  /** What the windows before the current one can have let into the interval. */
  function Earlier(rule: Rule, c: int, lo: int): int {
    if lo <= c then 0
    else if lo <= c + rule.windowMs then rule.max
    else if lo == c + rule.windowMs + 1 then 0
    else rule.max - 1
  }

  ghost predicate Admissible(times: seq<int>, rule: Rule, c: int, lo: int) {
    var rate, count := After(Rate(c, 0), times, rule), AdmittedIn(Rate(c, 0), times, rule, lo);
    var start, messages := rate.windowStartMs, rate.messages;
    && (times == [] ==> start == c && messages == 0 && count == 0)
    && (start != c ==> start > c + rule.windowMs && messages >= 1)
    && (times != [] ==>
      var last := times[|times| - 1];
      && c <= start <= last <= start + rule.windowMs
      && (last < lo || lo + rule.windowMs < c ==> count == 0)
      && (start < lo ==> count <= Min(messages, rule.max) - if start == c then 0 else 1)
      && (lo <= start <= lo + rule.windowMs ==> count <= Earlier(rule, c, lo) + Min(messages, rule.max))
      && count <= Peak(rule, c, lo))
  }

  lemma NextIsAdmissible(times: seq<int>, rule: Rule, c: int, lo: int, now: int)
    requires Admissible(times, rule, c, lo) && rule.max >= 1 && Since(c, times + [now])
    ensures Admissible(times + [now], rule, c, lo)
  {
    hide Within, Admitted, After, AdmittedIn;
    AdmittedInSnoc(Rate(c, 0), times, rule, now, lo);
    var more := times + [now];
    assert more[|more| - 1] == now && c <= now;
    if times != [] {
      assert more[|times| - 1] == times[|times| - 1] <= now;
    }
  }

  lemma {:induction false} EveryIntervalIsAdmissible(times: seq<int>, rule: Rule, c: int, lo: int)
    requires Since(c, times) && rule.max >= 1
    ensures Admissible(times, rule, c, lo)
    decreases |times|
  {
    if times == [] {
      NothingAdmitted(Rate(c, 0), rule, lo);
    } else {
      var earlier, now := times[..|times| - 1], times[|times| - 1];
      EveryIntervalIsAdmissible(earlier, rule, c, lo);
      assert earlier + [now] == times;
      NextIsAdmissible(earlier, rule, c, lo, now);
    }
  }

  function Repeat(t: int, n: nat): (s: seq<int>)
    ensures |s| == n && forall i :: 0 <= i < n ==> s[i] == t
  {
    if n == 0 then [] else Repeat(t, n - 1) + [t]
  }

  /** Messages that all fall into the window that is open. */
  lemma {:induction false} SameWindow(first: Rate, times: seq<int>, rule: Rule, start: int, had: nat, t: int, n: nat,
                                      lo: int)
    requires After(first, times, rule) == Rate(start, had) && had + n <= rule.max
    requires t <= start + rule.windowMs && lo <= t <= lo + rule.windowMs
    ensures After(first, times + Repeat(t, n), rule) == Rate(start, had + n)
    ensures AdmittedIn(first, times + Repeat(t, n), rule, lo) == AdmittedIn(first, times, rule, lo) + n
    decreases n
  {
    hide Within, Admitted, After, AdmittedIn;
    if n == 0 {
      assert times + Repeat(t, 0) == times;
    } else {
      var fewer := times + Repeat(t, n - 1);
      SameWindow(first, times, rule, start, had, t, n - 1, lo);
      assert times + Repeat(t, n) == fewer + [t];
      AdmittedInSnoc(first, fewer, rule, t, lo);
    }
  }

  /** Messages that open a window and use it up. */
  lemma NewWindow(first: Rate, times: seq<int>, rule: Rule, t: int, n: nat, lo: int)
    requires 1 <= n <= rule.max && After(first, times, rule).windowStartMs + rule.windowMs < t
    requires lo <= t <= lo + rule.windowMs
    ensures AdmittedIn(first, times + Repeat(t, n), rule, lo) == AdmittedIn(first, times, rule, lo) + n
  {
    hide Within, Admitted, After, AdmittedIn;
    AdmittedInSnoc(first, times, rule, t, lo);
    SameWindow(first, times + [t], rule, t, 1, t, n - 1, lo);
    RepeatFront(t, n);
    assert times + Repeat(t, n) == times + [t] + Repeat(t, n - 1);
  }

  lemma RepeatFront(t: int, n: nat)
    requires n >= 1
    ensures Repeat(t, n) == [t] + Repeat(t, n - 1)
  {
  }

  /** Messages that reach the peak: everything at once; or a whole window at
    * its very end and the next one directly behind it, after one message that
    * opens the first of them if the connection does not. */
  function Burst(rule: Rule, c: int, lo: int): seq<int>
    requires rule.max >= 1
  {
    var w := rule.windowMs;
    if lo + w < c then []
    else if lo <= c then Repeat(c, rule.max)
    else if lo <= c + w then Repeat(c + w, rule.max) + Repeat(c + w + 1, rule.max)
    else if lo == c + w + 1 then Repeat(lo, rule.max)
    else [lo - 1] + Repeat(lo - 1 + w, rule.max - 1) + Repeat(lo + w, rule.max)
  }

  lemma BurstReachesThePeak(rule: Rule, c: int, lo: int)
    requires rule.max >= 1 && rule.windowMs >= 1
    ensures Since(c, Burst(rule, c, lo))
    ensures AdmittedIn(Rate(c, 0), Burst(rule, c, lo), rule, lo) == Peak(rule, c, lo)
  {
    hide Within, Admitted, After, AdmittedIn, Since, Repeat;
    BurstIsOrdered(rule, c, lo);
    var w, first := rule.windowMs, Rate(c, 0);
    NothingAdmitted(first, rule, lo);
    if lo + w < c {
    } else if lo <= c {
      SameWindow(first, [], rule, c, 0, c, rule.max, lo);
      assert [] + Repeat(c, rule.max) == Repeat(c, rule.max);
    } else if lo <= c + w {
      SameWindow(first, [], rule, c, 0, c + w, rule.max, lo);
      assert [] + Repeat(c + w, rule.max) == Repeat(c + w, rule.max);
      NewWindow(first, Repeat(c + w, rule.max), rule, c + w + 1, rule.max, lo);
    } else if lo == c + w + 1 {
      NewWindow(first, [], rule, lo, rule.max, lo);
      assert [] + Repeat(lo, rule.max) == Repeat(lo, rule.max);
    } else {
      LateBurst(rule, c, lo);
    }
  }

  lemma BurstIsOrdered(rule: Rule, c: int, lo: int)
    requires rule.max >= 1 && rule.windowMs >= 1
    ensures Since(c, Burst(rule, c, lo))
  {
  }

  lemma LateBurst(rule: Rule, c: int, lo: int)
    requires rule.max >= 1 && rule.windowMs >= 1 && lo > c + rule.windowMs + 1
    ensures AdmittedIn(Rate(c, 0), Burst(rule, c, lo), rule, lo) == 2 * rule.max - 1
  {
    hide Within, Admitted, After, AdmittedIn, Repeat;
    var w, first := rule.windowMs, Rate(c, 0);
    NothingAdmitted(first, rule, lo);
    AdmittedInSnoc(first, [], rule, lo - 1, lo);
    assert [] + [lo - 1] == [lo - 1];
    SameWindow(first, [lo - 1], rule, lo - 1, 1, lo - 1 + w, rule.max - 1, lo);
    NewWindow(first, [lo - 1] + Repeat(lo - 1 + w, rule.max - 1), rule, lo + w, rule.max, lo);
  }

  /** The peak is exact: no message sequence of any connection exceeds it in
    * any interval of window length, and one reaches it. So an interval can
    * hold more than the maximum exactly when it begins inside the
    * connection's own window or, if more than one message is allowed, later
    * than right behind that window. */
  lemma PeakIsExact(rule: Rule, c: int, lo: int)
    requires rule.max >= 1 && rule.windowMs >= 1
    ensures forall times :: Since(c, times) ==> AdmittedIn(Rate(c, 0), times, rule, lo) <= Peak(rule, c, lo)
    ensures exists times :: Since(c, times) && AdmittedIn(Rate(c, 0), times, rule, lo) == Peak(rule, c, lo)
    ensures (exists times :: Since(c, times) && AdmittedIn(Rate(c, 0), times, rule, lo) > rule.max)
      <==> c < lo <= c + rule.windowMs || (c + rule.windowMs + 1 < lo && rule.max > 1)
  {
    hide Within, Admitted, After, AdmittedIn;
    forall times | Since(c, times)
      ensures AdmittedIn(Rate(c, 0), times, rule, lo) <= Peak(rule, c, lo)
    {
      EveryIntervalIsAdmissible(times, rule, c, lo);
    }
    BurstReachesThePeak(rule, c, lo);
  }

  /** No interval admits more than twice the maximum. */
  lemma AtMostTwice(times: seq<int>, rule: Rule, c: int, lo: int)
    requires Since(c, times) && rule.max >= 1
    ensures AdmittedIn(Rate(c, 0), times, rule, lo) <= 2 * rule.max
  {
    EveryIntervalIsAdmissible(times, rule, c, lo);
    if times == [] {
      NothingAdmitted(Rate(c, 0), rule, lo);
    }
  }

  // ----- From any state of the limiter

  /** The most messages that can get through in the interval that begins at
    * `lo`, when `rate` is the window that was open before: what that window
    * has left if it reaches into the interval, and one whole window. */
  function Allowance(rule: Rule, rate: Rate, lo: int): int {
    if lo - rate.windowStartMs <= rule.windowMs then 2 * rule.max - Min(rate.messages, rule.max) else rule.max
  }

  ghost predicate Allowed(times: seq<int>, rule: Rule, rate: Rate, lo: int) {
    var now, count := After(rate, times, rule), AdmittedIn(rate, times, rule, lo);
    var left := Allowance(rule, rate, lo) - rule.max;
    && (times == [] ==> now == rate && count == 0)
    && (times != [] ==> lo <= times[|times| - 1])
    && (now.windowStartMs == rate.windowStartMs ==>
      now.messages >= rate.messages && count <= Min(now.messages, rule.max) - Min(rate.messages, rule.max)
      && (times != [] ==> lo - rate.windowStartMs <= rule.windowMs))
    && (now.windowStartMs != rate.windowStartMs ==>
      && times != [] && lo <= now.windowStartMs <= times[|times| - 1]
      && (now.windowStartMs <= lo + rule.windowMs ==> count <= left + Min(now.messages, rule.max))
      && count <= left + rule.max)
  }

  lemma {:induction false} EveryContinuationIsAllowed(times: seq<int>, rule: Rule, rate: Rate, lo: int)
    requires Since(lo, times) && rule.max >= 1 && rate.windowStartMs < lo
    ensures Allowed(times, rule, rate, lo)
    decreases |times|
  {
    hide Within, Admitted, After, AdmittedIn;
    if times == [] {
      NothingAdmitted(rate, rule, lo);
    } else {
      var earlier, now := times[..|times| - 1], times[|times| - 1];
      EveryContinuationIsAllowed(earlier, rule, rate, lo);
      NextIsAllowed(earlier, rule, rate, lo, now);
      assert earlier + [now] == times;
    }
  }

  lemma NextIsAllowed(times: seq<int>, rule: Rule, rate: Rate, lo: int, now: int)
    requires Allowed(times, rule, rate, lo) && rule.max >= 1 && rate.windowStartMs < lo
    requires lo <= now && (times != [] ==> times[|times| - 1] <= now)
    ensures Allowed(times + [now], rule, rate, lo)
  {
    hide Within, Admitted, After, AdmittedIn;
    var more := times + [now];
    assert more[|more| - 1] == now && more != [];
    AdmittedInSnoc(rate, times, rule, now, lo);
  }

  function LastBurst(rule: Rule, rate: Rate, lo: int): seq<int>
    requires rule.max >= 1
  {
    var w, end := rule.windowMs, rate.windowStartMs + rule.windowMs;
    if lo > end then Repeat(lo, rule.max)
    else Repeat(end, rule.max - Min(rate.messages, rule.max)) + Repeat(end + 1, rule.max)
  }

  /** For the limiter in any state, the offset of the interval to the start of
    * the open window decides: at most the maximum is admitted by every
    * message sequence exactly when that window has closed before the interval
    * begins, or is used up. */
  lemma OffsetDecides(rule: Rule, rate: Rate, lo: int)
    requires rule.max >= 1 && rate.windowStartMs < lo
    ensures forall times :: Since(lo, times) ==> AdmittedIn(rate, times, rule, lo) <= Allowance(rule, rate, lo)
    ensures exists times :: Since(lo, times) && AdmittedIn(rate, times, rule, lo) == Allowance(rule, rate, lo)
    ensures (forall times :: Since(lo, times) ==> AdmittedIn(rate, times, rule, lo) <= rule.max)
      <==> lo - rate.windowStartMs > rule.windowMs || rate.messages >= rule.max
  {
    hide Within, Admitted, After, AdmittedIn;
    forall times | Since(lo, times)
      ensures AdmittedIn(rate, times, rule, lo) <= Allowance(rule, rate, lo)
    {
      EveryContinuationIsAllowed(times, rule, rate, lo);
    }
    LastBurstReaches(rule, rate, lo);
  }

  lemma LastBurstReaches(rule: Rule, rate: Rate, lo: int)
    requires rule.max >= 1 && rate.windowStartMs < lo
    ensures Since(lo, LastBurst(rule, rate, lo))
    ensures AdmittedIn(rate, LastBurst(rule, rate, lo), rule, lo) == Allowance(rule, rate, lo)
  {
    hide Within, Admitted, After, AdmittedIn;
    var end := rate.windowStartMs + rule.windowMs;
    NothingAdmitted(rate, rule, lo);
    if lo > end {
      NewWindow(rate, [], rule, lo, rule.max, lo);
      assert [] + Repeat(lo, rule.max) == Repeat(lo, rule.max);
    } else {
      var n := rule.max - Min(rate.messages, rule.max);
      if n == 0 {
        assert [] + Repeat(end + 1, rule.max) == Repeat(end, n) + Repeat(end + 1, rule.max);
        NewWindow(rate, [], rule, end + 1, rule.max, lo);
      } else {
        SameWindow(rate, [], rule, rate.windowStartMs, rate.messages, end, n, lo);
        assert [] + Repeat(end, n) == Repeat(end, n);
        NewWindow(rate, Repeat(end, n), rule, end + 1, rule.max, lo);
      }
    }
  }

  /** The limiter of one browser connection. Every connection is given its
    * first window when it opens, and a maximum or a window length of zero is
    * replaced by the default. */
  class MessageLimiter {
    const rule: Rule
    const connectedAt: int
    var rate: Rate
    ghost var times: seq<int>

    ghost predicate Valid()
      reads this
    {
      Since(connectedAt, times) && rate == After(Rate(connectedAt, 0), times, rule)
    }

    constructor (rule: Rule, now: int)
      ensures Valid() && this.rule == rule && connectedAt == now && times == []
    {
      this.rule := rule;
      connectedAt := now;
      rate := Rate(now, 0);
      times := [];
    }

    method AllowLocalWsMessage(now: int) returns (ok: bool)
      requires connectedAt <= now && (times != [] ==> times[|times| - 1] <= now)
      requires Valid()
      modifies this
      ensures Valid() && times == old(times) + [now]
      ensures Admitted(Rate(connectedAt, 0), times, rule)
        == Admitted(Rate(connectedAt, 0), old(times), rule) + (if ok then [now] else [])
    {
      hide Within, Admitted, After;
      AdmittedSnoc(Rate(connectedAt, 0), times, rule, now);
      times := times + [now];
      if now - rate.windowStartMs > rule.windowMs {
        rate := Rate(now, 0);
      }
      rate := rate.(messages := rate.messages + 1);
      ok := rate.messages <= rule.max;
    }
  }
}
