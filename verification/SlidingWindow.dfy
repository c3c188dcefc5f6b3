/** The sliding-window rate limiter: a pruned queue of accepted times for each principal decides like counting
    over the whole history. Times are integers in any unit. */
module SlidingWindow {
  datatype Principal = Principal(name: string)

  datatype Call = Call(principal: Principal, time: int)

  /** Every time accepted so far. */
  type History = map<Principal, seq<int>>

  function TimesOf(history: map<Principal, seq<int>>, p: Principal): seq<int> {
    if p in history then history[p] else []
  }

  /** How many of the times lie in (low, high]. */
  function CountIn(times: seq<int>, low: int, high: int): nat
    decreases |times|
  {
    if times == [] then 0
    else
      var n := |times| - 1;
      CountIn(times[..n], low, high) + if low < times[n] <= high then 1 else 0
  }

  /** The rule: the window that ends with the call holds fewer than `limit` accepted calls of its principal. */
  predicate Permits(limit: int, seconds: int, history: History, call: Call) {
    CountIn(TimesOf(history, call.principal), call.time - seconds, call.time) < limit
  }

  function Next(limit: int, seconds: int, history: History, call: Call): History {
    var times := TimesOf(history, call.principal);
    history[call.principal := if Permits(limit, seconds, history, call) then times + [call.time] else times]
  }

  /** The history after a trace of calls, each decided by the rule. */
  function After(limit: int, seconds: int, trace: seq<Call>): History
    decreases |trace|
  {
    if trace == [] then map[]
    else Next(limit, seconds, After(limit, seconds, trace[..|trace| - 1]), trace[|trace| - 1])
  }

  ghost predicate Ordered(times: seq<int>)
    decreases |times|
  {
    var n := |times|;
    n > 1 ==> Ordered(times[..n - 1]) && times[n - 2] <= times[n - 1]
  }

  /** Each of the times was permitted when it came. */
  ghost predicate Admitted(limit: int, seconds: int, times: seq<int>)
    decreases |times|
  {
    times != [] ==>
      var n := |times| - 1;
      Admitted(limit, seconds, times[..n]) && CountIn(times[..n], times[n] - seconds, times[n]) < limit
  }

  lemma {:induction false} LastIsLatest(times: seq<int>, i: nat)
    requires Ordered(times) && i < |times|
    ensures times[i] <= times[|times| - 1]
    decreases |times|
  {
    if i < |times| - 1 {
      LastIsLatest(times[..|times| - 1], i);
    }
  }

  /** A window that starts no later and ends after all the times counts no less. */
  lemma {:induction false} CountShrinks(times: seq<int>, low: int, high: int, low': int, high': int)
    requires low' <= low && Ordered(times) && (times != [] ==> times[|times| - 1] <= high')
    ensures CountIn(times, low, high) <= CountIn(times, low', high')
    decreases |times|
  {
    if times != [] {
      CountShrinks(times[..|times| - 1], low, high, low', high');
    }
  }

  /** No window of the given length, wherever it ends, holds more than `limit` accepted calls. */
  lemma {:induction false} NoWindowOverfull(limit: int, seconds: int, times: seq<int>, end: int)
    requires Ordered(times) && Admitted(limit, seconds, times)
    ensures Fits(limit, seconds, times, end)
    decreases |times|
  {
    if times != [] {
      var n := |times| - 1;
      NoWindowOverfull(limit, seconds, times[..n], end);
      if end - seconds < times[n] <= end {
        CountShrinks(times[..n], end - seconds, end, times[n] - seconds, times[n]);
      }
    }
  }

  /** The queue is the end of the history, and everything before it had left the window. */
  ghost predicate Queues(queue: seq<int>, times: seq<int>, bound: int) {
    var k := |times| - |queue|;
    k >= 0 && queue == times[k..] && forall i :: 0 <= i < k ==> times[i] <= bound
  }

  /** Once everything outside the window is dropped, the length of the queue is the count. */
  lemma {:induction false} QueueCounts(queue: seq<int>, times: seq<int>, now: int, seconds: int)
    requires Ordered(times) && (times != [] ==> times[|times| - 1] <= now)
    requires Queues(queue, times, now - seconds)
    requires queue != [] ==> queue[0] > now - seconds
    ensures CountIn(times, now - seconds, now) == |queue|
    decreases |times|
  {
    if times != [] {
      var n := |times| - 1;
      if queue == [] {
        QueueCounts([], times[..n], now, seconds);
      } else {
        LastIsLatest(times, |times| - |queue|);
        QueueCounts(queue[..|queue| - 1], times[..n], now, seconds);
      }
    }
  }

  /** What the limiter keeps about one principal. */
  ghost predicate Good(limit: int, seconds: int, queue: seq<int>, times: seq<int>, clock: int) {
    && Ordered(times) && Admitted(limit, seconds, times) && (times != [] ==> times[|times| - 1] <= clock)
    && Queues(queue, times, clock - seconds)
  }

  lemma GoodDecided(limit: int, seconds: int, live: seq<int>, times: seq<int>, now: int, allowed: bool)
    requires Good(limit, seconds, live, times, now)
    requires allowed ==> CountIn(times, now - seconds, now) < limit
    ensures Good(limit, seconds, if allowed then live + [now] else live, if allowed then times + [now] else times, now)
  {
    assert (times + [now])[..|times|] == times;
  }

  ghost predicate AllGood(limit: int, seconds: int, events: map<Principal, seq<int>>, history: History, clock: int) {
    forall p :: Good(limit, seconds, TimesOf(events, p), TimesOf(history, p), clock)
  }

  lemma AllGoodLater(limit: int, seconds: int, events: map<Principal, seq<int>>, history: History, clock: int, now: int)
    requires AllGood(limit, seconds, events, history, clock) && clock <= now
    ensures AllGood(limit, seconds, events, history, now)
  {
  }

  /** Replacing what is kept about one principal. */
  lemma AllGoodBut(limit: int, seconds: int, events: map<Principal, seq<int>>, history: History, clock: int,
                   p: Principal, queue: seq<int>, times: seq<int>)
    requires AllGood(limit, seconds, events, history, clock) && Good(limit, seconds, queue, times, clock)
    ensures AllGood(limit, seconds, events[p := queue], history[p := times], clock)
  {
    var events', history' := events[p := queue], history[p := times];
    forall q ensures Good(limit, seconds, TimesOf(events', q), TimesOf(history', q), clock) {
      if q == p {
        assert TimesOf(events', q) == queue && TimesOf(history', q) == times;
      } else {
        assert TimesOf(events', q) == TimesOf(events, q) && TimesOf(history', q) == TimesOf(history, q);
      }
    }
  }

  ghost predicate Fits(limit: int, seconds: int, times: seq<int>, end: int) {
    CountIn(times, end - seconds, end) <= if limit > 0 then limit else 0
  }

  ghost predicate NeverOverfull(limit: int, seconds: int, times: seq<int>) {
    forall end :: Fits(limit, seconds, times, end)
  }

  lemma GoodNeverOverfull(limit: int, seconds: int, events: map<Principal, seq<int>>, history: History, clock: int)
    requires AllGood(limit, seconds, events, history, clock)
    ensures forall p :: NeverOverfull(limit, seconds, TimesOf(history, p))
  {
    forall p, end: int ensures Fits(limit, seconds, TimesOf(history, p), end) {
      assert Good(limit, seconds, TimesOf(events, p), TimesOf(history, p), clock);
      NoWindowOverfull(limit, seconds, TimesOf(history, p), end);
    }
  }

  class SlidingWindowLimiter {
    const limit: int
    const seconds: int
    var events: map<Principal, seq<int>>
    ghost var history: History
    ghost var clock: int

    constructor (limit: int, seconds: int, ghost start: int)
      ensures Valid() && this.limit == limit && this.seconds == seconds && history == map[] && clock == start
    {
      this.limit, this.seconds, events, history, clock := limit, seconds, map[], map[], start;
    }

    ghost predicate Valid()
      reads this
    {
      AllGood(limit, seconds, events, history, clock)
    }

    /** Drops the times that have left the window; what is left is the count of the rule. */
    method Prune(queue: seq<int>, now: int, ghost times: seq<int>) returns (live: seq<int>)
      requires Good(limit, seconds, queue, times, now)
      ensures Good(limit, seconds, live, times, now)
      ensures |live| == CountIn(times, now - seconds, now)
    {
      live := queue;
      while live != [] && live[0] <= now - seconds
        invariant Queues(live, times, now - seconds)
        decreases |live|
      {
        live := live[1..];
      }
      QueueCounts(live, times, now, seconds);
    }

    method Store(p: Principal, queue: seq<int>, ghost times: seq<int>, ghost now: int)
      requires Valid() && clock <= now && Good(limit, seconds, queue, times, now)
      modifies this
      ensures Valid() && clock == now && history == old(history)[p := times]
    {
      AllGoodLater(limit, seconds, events, history, clock, now);
      AllGoodBut(limit, seconds, events, history, now, p, queue, times);
      events, history, clock := events[p := queue], history[p := times], now;
    }

    /** Decides by the queue alone what the rule decides by the whole history. */
    method Allow(p: Principal, now: int) returns (allowed: bool)
      requires Valid() && clock <= now
      modifies this
      ensures Valid() && clock == now
      ensures allowed == Permits(limit, seconds, old(history), Call(p, now))
      ensures history == Next(limit, seconds, old(history), Call(p, now))
    {
      ghost var times := TimesOf(history, p);
      AllGoodLater(limit, seconds, events, history, clock, now);
      var live := Prune(TimesOf(events, p), now, times);
      allowed := |live| < limit;
      assert allowed == Permits(limit, seconds, history, Call(p, now));
      GoodDecided(limit, seconds, live, times, now, allowed);
      Store(p, if allowed then live + [now] else live, if allowed then times + [now] else times, now);
    }
  }

  /** These are the rule's decisions about the first calls of the trace. */
  ghost predicate Decided(limit: int, seconds: int, trace: seq<Call>, decisions: seq<bool>)
    decreases |decisions|
  {
    if decisions == [] then true
    else
      var n := |decisions| - 1;
      n < |trace| && decisions[n] == Permits(limit, seconds, After(limit, seconds, trace[..n]), trace[n])
      && Decided(limit, seconds, trace, decisions[..n])
  }

  lemma {:induction false} DecidedAt(limit: int, seconds: int, trace: seq<Call>, decisions: seq<bool>, i: nat)
    requires Decided(limit, seconds, trace, decisions) && i < |decisions|
    ensures i < |trace| && decisions[i] == Permits(limit, seconds, After(limit, seconds, trace[..i]), trace[i])
    decreases |decisions|
  {
    if i < |decisions| - 1 { DecidedAt(limit, seconds, trace, decisions[..|decisions| - 1], i); }
  }

  lemma DecideNext(limit: int, seconds: int, trace: seq<Call>, decisions: seq<bool>, allowed: bool)
    requires Decided(limit, seconds, trace, decisions) && |decisions| < |trace|
    ensures var n := |decisions|;
            && After(limit, seconds, trace[..n + 1])
               == Next(limit, seconds, After(limit, seconds, trace[..n]), trace[n])
            && (allowed == Permits(limit, seconds, After(limit, seconds, trace[..n]), trace[n]) ==>
                  Decided(limit, seconds, trace, decisions + [allowed]))
  {
    hide Permits, Next;
    var n := |decisions|;
    assert trace[..n + 1][..n] == trace[..n] && (decisions + [allowed])[..n] == decisions;
  }

  /** The accepted calls of a principal among the first `n` whose time lies in (low, high]. */
  ghost function Window(trace: seq<Call>, decisions: seq<bool>, n: nat, p: Principal, low: int, high: int): set<int>
    requires n <= |trace| && n <= |decisions|
  {
    set i | 0 <= i < n && decisions[i] && trace[i].principal == p && low < trace[i].time <= high
  }

  lemma WindowNext(trace: seq<Call>, decisions: seq<bool>, i: nat, p: Principal, low: int, high: int)
    requires i < |trace| && i < |decisions|
    ensures |Window(trace, decisions, i + 1, p, low, high)|
            == |Window(trace, decisions, i, p, low, high)|
               + if decisions[i] && trace[i].principal == p && low < trace[i].time <= high then 1 else 0
  {
    assert Window(trace, decisions, i + 1, p, low, high)
        == Window(trace, decisions, i, p, low, high)
           + if decisions[i] && trace[i].principal == p && low < trace[i].time <= high then {i} else {};
  }

  lemma CountNext(times: seq<int>, time: int, low: int, high: int)
    ensures CountIn(times + [time], low, high) == CountIn(times, low, high) + if low < time <= high then 1 else 0
  {
    assert (times + [time])[..|times|] == times;
  }

  lemma {:induction false} HistoryCounts(limit: int, seconds: int, trace: seq<Call>, decisions: seq<bool>, n: nat,
                                         p: Principal, low: int, high: int)
    requires Decided(limit, seconds, trace, decisions) && n <= |decisions| <= |trace|
    ensures CountIn(TimesOf(After(limit, seconds, trace[..n]), p), low, high)
            == |Window(trace, decisions, n, p, low, high)|
  {
    if n > 0 {
      var i := n - 1;
      HistoryCounts(limit, seconds, trace, decisions, i, p, low, high);
      hide Decided, Permits, CountIn, Window;
      DecidedAt(limit, seconds, trace, decisions, i);
      assert trace[..n][..i] == trace[..i];
      CountNext(TimesOf(After(limit, seconds, trace[..i]), p), trace[i].time, low, high);
      WindowNext(trace, decisions, i, p, low, high);
    }
  }

  /** A call is accepted if and only if fewer than `limit` accepted calls of its principal lie in the window that
      ends with it. */
  ghost predicate AcceptedExactly(limit: int, seconds: int, trace: seq<Call>, decisions: seq<bool>, i: nat)
    requires i < |decisions| <= |trace|
  {
    var call := trace[i];
    decisions[i] <==> |Window(trace, decisions, i, call.principal, call.time - seconds, call.time)| < limit
  }

  lemma RuleAcceptsExactly(limit: int, seconds: int, trace: seq<Call>, decisions: seq<bool>, i: nat)
    requires Decided(limit, seconds, trace, decisions) && i < |decisions| <= |trace|
    ensures AcceptedExactly(limit, seconds, trace, decisions, i)
  {
    hide After, Decided, CountIn, Window, TimesOf;
    DecidedAt(limit, seconds, trace, decisions, i);
    HistoryCounts(limit, seconds, trace, decisions, i, trace[i].principal, trace[i].time - seconds, trace[i].time);
  }

  lemma DecidedByRule(limit: int, seconds: int, trace: seq<Call>, decisions: seq<bool>)
    requires Decided(limit, seconds, trace, decisions) && |decisions| == |trace|
    ensures forall i :: 0 <= i < |trace| ==>
              decisions[i] == Permits(limit, seconds, After(limit, seconds, trace[..i]), trace[i])
    ensures forall i :: 0 <= i < |trace| ==> AcceptedExactly(limit, seconds, trace, decisions, i)
  {
    hide After, Decided, Permits, AcceptedExactly;
    forall i | 0 <= i < |trace|
      ensures decisions[i] == Permits(limit, seconds, After(limit, seconds, trace[..i]), trace[i])
      ensures AcceptedExactly(limit, seconds, trace, decisions, i)
    {
      RuleAcceptsExactly(limit, seconds, trace, decisions, i);
      DecidedAt(limit, seconds, trace, decisions, i);
    }
  }

  /** For every monotone trace the limiter gives exactly the decisions of the rule, and no window of any
      principal ever holds more than `limit` accepted calls. */
  method Replay(limit: int, seconds: int, trace: seq<Call>) returns (decisions: seq<bool>, ghost history: History)
    requires forall i :: 0 < i < |trace| ==> trace[i - 1].time <= trace[i].time
    ensures |decisions| == |trace|
    ensures forall i :: 0 <= i < |trace| ==>
              decisions[i] == Permits(limit, seconds, After(limit, seconds, trace[..i]), trace[i])
    ensures forall i :: 0 <= i < |trace| ==> AcceptedExactly(limit, seconds, trace, decisions, i)
    ensures history == After(limit, seconds, trace)
    ensures forall p :: NeverOverfull(limit, seconds, TimesOf(history, p))
  {
    assert After(limit, seconds, trace[..0]) == map[];
    assert Decided(limit, seconds, trace, []);
    hide After, Next, Permits, Decided, NeverOverfull, AcceptedExactly, AllGood, TimesOf;
    var limiter := new SlidingWindowLimiter(limit, seconds, if trace == [] then 0 else trace[0].time);
    decisions := [];
    for i := 0 to |trace|
      invariant limiter.Valid() && limiter.limit == limit && limiter.seconds == seconds && |decisions| == i
      invariant i < |trace| ==> limiter.clock <= trace[i].time
      invariant limiter.history == After(limit, seconds, trace[..i])
      invariant Decided(limit, seconds, trace, decisions)
    {
      var allowed := limiter.Allow(trace[i].principal, trace[i].time);
      DecideNext(limit, seconds, trace, decisions, allowed);
      decisions := decisions + [allowed];
    }
    assert trace[..|trace|] == trace;
    history := limiter.history;
    GoodNeverOverfull(limit, seconds, limiter.events, history, limiter.clock);
    DecidedByRule(limit, seconds, trace, decisions);
  }
}
