/** Endpoint selection with quarantine, and the retry loop of one embedding call.

    Endpoints are distinct and are named by integers, whose order breaks ties. */
module EndpointPool {
  type Endpoint = int

  datatype State = State(outstanding: int, failures: nat, quarantinedUntil: int, batches: nat)

  type States = map<Endpoint, State>

  ghost predicate Distinct(order: seq<Endpoint>) {
    forall i, j :: 0 <= i < j < |order| ==> order[i] != order[j]
  }

  /** Neither tried nor quarantined. */
  function Free(order: seq<Endpoint>, states: States, tried: set<Endpoint>, now: int): (kept: seq<Endpoint>)
    requires forall e :: e in order ==> e in states
    ensures forall e :: e in kept <==> e in order && e !in tried && states[e].quarantinedUntil <= now
    decreases |order|
  {
    if order == [] then []
    else
      var last := order[|order| - 1];
      assert order == order[..|order| - 1] + [last];
      var front := Free(order[..|order| - 1], states, tried, now);
      if last !in tried && states[last].quarantinedUntil <= now then front + [last] else front
  }

  function Untried(order: seq<Endpoint>, tried: set<Endpoint>): (kept: seq<Endpoint>)
    ensures forall e :: e in kept <==> e in order && e !in tried
    decreases |order|
  {
    if order == [] then []
    else
      var last := order[|order| - 1];
      assert order == order[..|order| - 1] + [last];
      var front := Untried(order[..|order| - 1], tried);
      if last !in tried then front + [last] else front
  }

  /** Those neither tried nor quarantined, else those not tried, else all. */
  function Candidates(order: seq<Endpoint>, states: States, tried: set<Endpoint>, now: int): seq<Endpoint>
    requires forall e :: e in order ==> e in states
  {
    if Free(order, states, tried, now) != [] then Free(order, states, tried, now)
    else if Untried(order, tried) != [] then Untried(order, tried)
    else order
  }

  /** Fewest outstanding requests first, then fewest batches, fewest failures, smallest name. */
  predicate Before(states: States, a: Endpoint, b: Endpoint)
    requires a in states && b in states
  {
    var x, y := states[a], states[b];
    if x.outstanding != y.outstanding then x.outstanding < y.outstanding
    else if x.batches != y.batches then x.batches < y.batches
    else if x.failures != y.failures then x.failures < y.failures
    else a < b
  }

  function Least(states: States, candidates: seq<Endpoint>): (least: Endpoint)
    requires candidates != [] && forall e :: e in candidates ==> e in states
    ensures least in candidates && forall e :: e in candidates ==> !Before(states, e, least)
    decreases |candidates|
  {
    var n := |candidates| - 1;
    assert candidates == candidates[..n] + [candidates[n]];
    if n == 0 then candidates[0]
    else
      var least := Least(states, candidates[..n]);
      if Before(states, candidates[n], least) then candidates[n] else least
  }

  datatype Pool = Pool(states: States, cursor: nat)

  datatype Config = Config(order: seq<Endpoint>, roundRobin: bool, maxAttempts: nat, quarantine: nat)

  ghost predicate Proper(cfg: Config, pool: Pool) {
    cfg.order != [] && Distinct(cfg.order) && pool.states.Keys == set e | e in cfg.order
  }

  function PickFrom(cfg: Config, pool: Pool, candidates: seq<Endpoint>): (picked: Endpoint)
    requires candidates != [] && forall e :: e in candidates ==> e in pool.states
    ensures picked in candidates
  {
    if cfg.roundRobin then candidates[pool.cursor % |candidates|] else Least(pool.states, candidates)
  }

  function Pick(cfg: Config, pool: Pool, tried: set<Endpoint>, now: int): (picked: Endpoint)
    requires Proper(cfg, pool)
    ensures picked in cfg.order
  {
    PickFrom(cfg, pool, Candidates(cfg.order, pool.states, tried, now))
  }

  function AfterAcquire(cfg: Config, pool: Pool, e: Endpoint): Pool
    requires e in pool.states
  {
    Pool(pool.states[e := pool.states[e].(outstanding := pool.states[e].outstanding + 1)],
         pool.cursor + if cfg.roundRobin then 1 else 0)
  }

  function AfterRelease(cfg: Config, pool: Pool, e: Endpoint, failed: bool, now: int): Pool
    requires e in pool.states
  {
    var s := pool.states[e];
    var fewer := if s.outstanding - 1 > 0 then s.outstanding - 1 else 0;
    pool.(states := pool.states[e :=
      if failed then s.(outstanding := fewer, failures := s.failures + 1, quarantinedUntil := now + cfg.quarantine)
      else s.(outstanding := fewer, batches := s.batches + 1)])
  }

  /** As long as something is untried, nothing tried is picked, whatever is quarantined. */
  lemma PickUntried(cfg: Config, pool: Pool, tried: set<Endpoint>, now: int)
    requires Proper(cfg, pool)
    ensures (exists e :: e in cfg.order && e !in tried) ==> Pick(cfg, pool, tried, now) !in tried
    ensures (exists e :: e in cfg.order && e !in tried && pool.states[e].quarantinedUntil <= now) ==>
              pool.states[Pick(cfg, pool, tried, now)].quarantinedUntil <= now
  {
    if e :| e in cfg.order && e !in tried { assert e in Untried(cfg.order, tried); }
    if e :| e in cfg.order && e !in tried && pool.states[e].quarantinedUntil <= now {
      assert e in Free(cfg.order, pool.states, tried, now);
    }
  }

  /** With least outstanding first, nothing that may be picked has fewer outstanding requests than what is; among
      equals nothing has fewer batches, then fewer failures, then a smaller name. */
  lemma PickIsLeastBusy(cfg: Config, pool: Pool, tried: set<Endpoint>, now: int, e: Endpoint)
    requires Proper(cfg, pool) && !cfg.roundRobin && e in Candidates(cfg.order, pool.states, tried, now)
    ensures var p := Pick(cfg, pool, tried, now);
            var x, y := pool.states[p], pool.states[e];
            && p in Candidates(cfg.order, pool.states, tried, now)
            && x.outstanding <= y.outstanding
            && (x.outstanding == y.outstanding ==> x.batches <= y.batches)
            && (x.outstanding == y.outstanding && x.batches == y.batches ==> x.failures <= y.failures)
            && ((x.outstanding, x.batches, x.failures) == (y.outstanding, y.batches, y.failures) ==> p <= e)
  {
  }

  /** What may be picked: the endpoints neither tried nor quarantined if there are any, else those not tried if
      there are any, else all. */
  lemma CandidatesExactly(cfg: Config, pool: Pool, tried: set<Endpoint>, now: int, e: Endpoint)
    requires Proper(cfg, pool)
    ensures var free := set x | x in cfg.order && x !in tried && pool.states[x].quarantinedUntil <= now;
            var untried := set x | x in cfg.order && x !in tried;
            e in Candidates(cfg.order, pool.states, tried, now) <==>
              if free != {} then e in free else if untried != {} then e in untried else e in cfg.order
  {
    var free := set x | x in cfg.order && x !in tried && pool.states[x].quarantinedUntil <= now;
    var untried := set x | x in cfg.order && x !in tried;
    var left, rest := Free(cfg.order, pool.states, tried, now), Untried(cfg.order, tried);
    if left != [] { assert left[0] in free; } else { assert forall x :: x in free ==> x in left; }
    if rest != [] { assert rest[0] in untried; } else { assert forall x :: x in untried ==> x in rest; }
  }

  lemma CandidatesFit(cfg: Config, pool: Pool, tried: set<Endpoint>, now: int)
    requires Proper(cfg, pool)
    ensures var candidates := Candidates(cfg.order, pool.states, tried, now);
            candidates != [] && forall e :: e in candidates ==> e in cfg.order && e in pool.states
  {
  }

  /** In turn: while every endpoint is free, the picks of as many successive calls as there are endpoints go through
      all of them. */
  lemma RoundRobinReachesAll(cfg: Config, pool: Pool, now: int, j: nat) returns (i: nat)
    requires Proper(cfg, pool) && cfg.roundRobin && j < |cfg.order|
    requires forall e :: e in cfg.order ==> pool.states[e].quarantinedUntil <= now
    ensures i < |cfg.order| && Pick(cfg, pool.(cursor := pool.cursor + i), {}, now) == cfg.order[j]
  {
    hide Pick;
    i := Aligned(pool.cursor, |cfg.order|, j);
    PickInTurn(cfg, pool.(cursor := pool.cursor + i), now);
  }

  lemma PickInTurn(cfg: Config, pool: Pool, now: int)
    requires Proper(cfg, pool) && cfg.roundRobin
    requires forall e :: e in cfg.order ==> pool.states[e].quarantinedUntil <= now
    ensures Pick(cfg, pool, {}, now) == cfg.order[pool.cursor % |cfg.order|]
  {
    AllFree(cfg.order, pool.states, now);
  }

  /** Any remainder comes up within one turn. */
  lemma {:induction false} Aligned(start: nat, n: nat, j: nat) returns (i: nat)
    requires j < n
    ensures i < n && (start + i) % n == j
  {
    if start == 0 { return j; }
    i := Aligned(start - 1, n, j);
    if i > 0 { return i - 1; }
    FullTurn(start - 1, n);
    i := n - 1;
  }

  lemma FullTurn(x: nat, n: nat)
    requires n > 0
    ensures (x + n) % n == x % n
  {
    assert x + n == (x / n + 1) * n + x % n;
    SameRemainder((x + n) / n, (x + n) % n, x / n + 1, x % n, n);
  }

  lemma SameRemainder(q: int, r: nat, q': int, r': nat, n: nat)
    requires r < n && r' < n && q * n + r == q' * n + r'
    ensures r == r'
  {
    if q > q' { AtLeastOnce(q - q', n); } else if q < q' { AtLeastOnce(q' - q, n); }
  }

  lemma AtLeastOnce(turns: nat, n: nat)
    requires turns > 0
    ensures turns * n >= n
  {
    assert (turns - 1) * n >= 0;
  }

  lemma {:induction false} AllFree(order: seq<Endpoint>, states: States, now: int)
    requires forall e :: e in order ==> e in states && states[e].quarantinedUntil <= now
    ensures Free(order, states, {}, now) == order
    decreases |order|
  {
    if order != [] {
      var n := |order| - 1;
      assert order == order[..n] + [order[n]];
      AllFree(order[..n], states, now);
    }
  }

  // ---- One call ----

  /** The endpoints a call has tried: its full rounds and the current one. */
  datatype Tries = Tries(full: seq<seq<Endpoint>>, current: seq<Endpoint>)

  function Made(order: seq<Endpoint>, t: Tries): nat {
    |t.full| * |order| + |t.current|
  }

  function Extend(order: seq<Endpoint>, t: Tries, e: Endpoint): Tries {
    if |t.current| + 1 == |order| then Tries(t.full + [t.current + [e]], []) else Tries(t.full, t.current + [e])
  }

  /** Every full round went through each endpoint once, and the current one repeats none. */
  ghost predicate Rounds(order: seq<Endpoint>, t: Tries) {
    && (forall round :: round in t.full ==> Distinct(round) && Elements(round) == Elements(order))
    && Distinct(t.current) && Elements(t.current) <= Elements(order) && |t.current| < |order|
  }

  function Elements(s: seq<Endpoint>): set<Endpoint> {
    set e | e in s
  }

  lemma {:induction false} DistinctSize(s: seq<Endpoint>)
    requires Distinct(s)
    ensures |Elements(s)| == |s|
    decreases |s|
  {
    if s != [] {
      var n := |s| - 1;
      DistinctSize(s[..n]);
      assert Elements(s) == Elements(s[..n]) + {s[n]};
    }
  }

  /** A full set of endpoints is all of them. */
  lemma AllTried(order: seq<Endpoint>, tried: set<Endpoint>)
    requires Distinct(order) && tried <= Elements(order)
    ensures |tried| == |order| <==> tried == Elements(order)
    ensures |tried| <= |order|
  {
    DistinctSize(order);
    var missing := Elements(order) - tried;
    assert Elements(order) == tried + missing && |tried + missing| == |tried| + |missing|;
    assert missing == {} ==> tried == Elements(order);
  }

  /** An attempt at an untried endpoint extends the round; a full round starts a new one. */
  lemma AttemptKeepsRounds(order: seq<Endpoint>, t: Tries, e: Endpoint)
    requires order != [] && Distinct(order) && Rounds(order, t) && e in order && e !in t.current
    ensures Rounds(order, Extend(order, t, e)) && Made(order, Extend(order, t, e)) == Made(order, t) + 1
    ensures |Elements(t.current) + {e}| == |order| <==> Extend(order, t, e).current == []
    ensures Elements(Extend(order, t, e).current)
            == if |Elements(t.current) + {e}| == |order| then {} else Elements(t.current) + {e}
  {
    var longer := t.current + [e];
    assert Elements(longer) == Elements(t.current) + {e};
    DistinctSize(longer);
    AllTried(order, Elements(longer));
    assert (|t.full| + 1) * |order| == |t.full| * |order| + |order|;
  }

  lemma SomeUntried(order: seq<Endpoint>, t: Tries)
    requires Distinct(order) && Rounds(order, t)
    ensures exists e :: e in order && e !in t.current
  {
    DistinctSize(t.current);
    AllTried(order, Elements(t.current));
    var e :| e in Elements(order) && e !in Elements(t.current);
  }

  function Attempts(cfg: Config): nat {
    if cfg.maxAttempts > |cfg.order| then cfg.maxAttempts else |cfg.order|
  }

  datatype Reply = Success | ServiceError | OtherError
  datatype Outcome = Returned | AllFailed | Raised

  /** All tries, in order. */
  function Flat(rounds: seq<seq<Endpoint>>): seq<Endpoint>
    decreases |rounds|
  {
    if rounds == [] then [] else Flat(rounds[..|rounds| - 1]) + rounds[|rounds| - 1]
  }

  function All(t: Tries): seq<Endpoint> {
    Flat(t.full) + t.current
  }

  /** The endpoints of a full round are among all tries. */
  lemma {:induction false} FlatHas(rounds: seq<seq<Endpoint>>, round: seq<Endpoint>, e: Endpoint)
    requires round in rounds && e in round
    ensures e in Flat(rounds)
    decreases |rounds|
  {
    var n := |rounds| - 1;
    if rounds[n] != round {
      assert rounds == rounds[..n] + [rounds[n]];
      FlatHas(rounds[..n], round, e);
    }
  }

  /** What one more attempt at an untried endpoint does to the history of a call. */
  lemma NextTry(order: seq<Endpoint>, t: Tries, e: Endpoint)
    requires order != [] && Distinct(order) && Rounds(order, t) && e in order && e !in t.current
    ensures var t' := Extend(order, t, e);
            && Rounds(order, t') && Made(order, t') == Made(order, t) + 1 && All(t') == All(t) + [e]
            && Elements(t'.current)
               == if |Elements(t.current) + {e}| == |order| then {} else Elements(t.current) + {e}
  {
    AttemptKeepsRounds(order, t, e);
    var round := t.current + [e];
    assert (t.full + [round])[..|t.full|] == t.full;
    assert Flat(t.full) + round == Flat(t.full) + t.current + [e];
  }

  /** As many attempts as there are endpoints go through all of them. */
  lemma EnoughForAll(order: seq<Endpoint>, t: Tries)
    requires order != [] && Rounds(order, t) && Made(order, t) >= |order|
    ensures forall e :: e in order ==> e in All(t)
    ensures All(t) != []
  {
    assert t.full == [] ==> Made(order, t) == |t.current|;
    var first := order[0];
    assert t.full[0] in t.full && first in Elements(t.full[0]);
    FlatHas(t.full, t.full[0], first);
    forall e | e in order ensures e in All(t) {
      assert t.full[0] in t.full && e in Elements(order);
      FlatHas(t.full, t.full[0], e);
    }
  }

  /** Every endpoint that was tried without success has been charged a failure, and none is kept busy. */
  ghost predicate Charged(before: States, after: States, tries: seq<Endpoint>) {
    && before.Keys == after.Keys
    && forall e :: e in before ==>
         after[e].outstanding == before[e].outstanding
         && after[e].failures >= before[e].failures + if e in tries then 1 else 0
  }

  lemma ChargedNext(s0: States, s1: States, s2: States, sent: seq<Endpoint>, e: Endpoint)
    requires Charged(s0, s1, sent) && s1.Keys == s2.Keys
    requires forall x :: x in s1 ==>
               s2[x].outstanding == s1[x].outstanding && s2[x].failures == s1[x].failures + if x == e then 1 else 0
    ensures Charged(s0, s2, sent + [e])
  {
  }

  ghost predicate OnlyErrors(replies: seq<Reply>) {
    forall i :: 0 <= i < |replies| ==> replies[i] == ServiceError
  }

  method Clock() returns (now: int) {
    now := *;
  }

  class EndpointPool {
    const cfg: Config
    var states: States
    var cursor: nat
    ghost var asked: seq<Endpoint>  // the requests sent, in order
    ghost var replies: seq<Reply>   // what came back

    constructor (cfg: Config)
      requires cfg.order != [] && Distinct(cfg.order)
      ensures Valid() && this.cfg == cfg && asked == [] && replies == []
      ensures forall e :: e in cfg.order ==> states[e].outstanding == 0
    {
      this.cfg, cursor, asked, replies := cfg, 0, [], [];
      states := map e | e in cfg.order :: State(0, 0, 0, 0);
    }

    function Value(): Pool
      reads this
    {
      Pool(states, cursor)
    }

    ghost predicate Valid()
      reads this
    {
      Proper(cfg, Value())
    }

    method SelectFree(tried: set<Endpoint>, now: int) returns (kept: seq<Endpoint>)
      requires Valid()
      ensures kept == Free(cfg.order, states, tried, now)
    {
      kept := [];
      for i := 0 to |cfg.order|
        invariant kept == Free(cfg.order[..i], states, tried, now)
      {
        var e := cfg.order[i];
        assert cfg.order[..i + 1][..i] == cfg.order[..i];
        if e !in tried && states[e].quarantinedUntil <= now { kept := kept + [e]; }
      }
      assert cfg.order[..|cfg.order|] == cfg.order;
    }

    method SelectUntried(tried: set<Endpoint>) returns (kept: seq<Endpoint>)
      ensures kept == Untried(cfg.order, tried)
    {
      kept := [];
      for i := 0 to |cfg.order|
        invariant kept == Untried(cfg.order[..i], tried)
      {
        var e := cfg.order[i];
        assert cfg.order[..i + 1][..i] == cfg.order[..i];
        if e !in tried { kept := kept + [e]; }
      }
      assert cfg.order[..|cfg.order|] == cfg.order;
    }

    method Minimum(candidates: seq<Endpoint>) returns (least: Endpoint)
      requires candidates != [] && forall e :: e in candidates ==> e in states
      ensures least == Least(states, candidates)
    {
      least := candidates[0];
      assert candidates[..1] == [candidates[0]];
      for i := 1 to |candidates|
        invariant least == Least(states, candidates[..i])
      {
        assert candidates[..i + 1][..i] == candidates[..i];
        if Before(states, candidates[i], least) { least := candidates[i]; }
      }
      assert candidates[..|candidates|] == candidates;
    }

    method Eligible(tried: set<Endpoint>, now: int) returns (eligible: seq<Endpoint>)
      requires Valid()
      ensures eligible == Candidates(cfg.order, states, tried, now)
    {
      eligible := SelectFree(tried, now);
      if eligible == [] { eligible := SelectUntried(tried); }
      if eligible == [] { eligible := cfg.order; }
    }

    method Choose(eligible: seq<Endpoint>) returns (e: Endpoint)
      requires eligible != [] && forall x :: x in eligible ==> x in states
      modifies this`cursor
      ensures e == PickFrom(cfg, old(Value()), eligible)
      ensures cursor == old(cursor) + if cfg.roundRobin then 1 else 0
    {
      if cfg.roundRobin {
        e := eligible[cursor % |eligible|];
        cursor := cursor + 1;
      } else {
        e := Minimum(eligible);
      }
    }

    method Acquire(tried: set<Endpoint>, now: int) returns (e: Endpoint)
      requires Valid()
      modifies this`states, this`cursor
      ensures e == Pick(cfg, old(Value()), tried, now)
      ensures e in old(states) && Value() == AfterAcquire(cfg, old(Value()), e)
      ensures Valid()
    {
      hide Candidates, PickFrom;
      ghost var pool := Value();
      CandidatesFit(cfg, pool, tried, now);
      var eligible := Eligible(tried, now);
      e := Choose(eligible);
      assert e == Pick(cfg, pool, tried, now);
      states := states[e := states[e].(outstanding := states[e].outstanding + 1)];
    }

    method Release(e: Endpoint, failed: bool, now: int)
      requires Valid() && e in states
      modifies this`states
      ensures Valid() && Value() == AfterRelease(cfg, old(Value()), e, failed, now)
    {
      var s := states[e];
      s := s.(outstanding := if s.outstanding - 1 > 0 then s.outstanding - 1 else 0);
      if failed {
        s := s.(failures := s.failures + 1, quarantinedUntil := now + cfg.quarantine);
      } else {
        s := s.(batches := s.batches + 1);
      }
      states := states[e := s];
    }

    /** Sends a request. What the endpoint answers is up to it. */
    method Ask(e: Endpoint) returns (reply: Reply)
      modifies this`asked, this`replies
      ensures asked == old(asked) + [e] && replies == old(replies) + [reply]
    {
      asked := asked + [e];
      var served, known := *, *;
      reply := if served then Success else if known then ServiceError else OtherError;
      replies := replies + [reply];
    }

    /** One attempt of a call that may still try something new. Whoever gets an endpoint gives it back, unless
        the client of a synchronous call raised anything but a service error. */
    method Attempt(asynchronous: bool, tried: set<Endpoint>) returns (reply: Reply, e: Endpoint)
      requires Valid() && (forall e :: e in states ==> states[e].outstanding >= 0)
      requires exists e :: e in cfg.order && e !in tried
      modifies this
      ensures Valid() && e in cfg.order && e !in tried && asked == old(asked) + [e]
      ensures replies == old(replies) + [reply]
      ensures forall x :: x in states ==>
                states[x].outstanding
                == old(states)[x].outstanding + if reply == OtherError && !asynchronous && x == e then 1 else 0
      ensures forall x :: x in states ==>
                states[x].failures
                == old(states)[x].failures
                   + if x == e && (reply == ServiceError || (reply == OtherError && asynchronous)) then 1 else 0
    {
      hide Pick;
      var now := Clock();
      PickUntried(cfg, Value(), tried, now);
      e := Acquire(tried, now);
      reply := Ask(e);
      now := Clock();
      if reply != OtherError || asynchronous { Release(e, reply != Success, now); }
    }

    /** All attempts of a call so far ended in service errors. */
    ghost predicate Calling(asked0: seq<Endpoint>, states0: States, tries: Tries, attempts: nat)
      reads this
    {
      && Valid() && Rounds(cfg.order, tries) && Made(cfg.order, tries) == attempts
      && asked == asked0 + All(tries) && Charged(states0, states, All(tries))
    }

    /** One turn of the retry loop. */
    method Turn(asynchronous: bool, tried: set<Endpoint>, ghost asked0: seq<Endpoint>, ghost states0: States,
                ghost tries: Tries, ghost attempts: nat)
      returns (reply: Reply, tried': set<Endpoint>, ghost tries': Tries)
      requires Calling(asked0, states0, tries, attempts) && tried == Elements(tries.current)
      requires forall e :: e in states ==> states[e].outstanding >= 0
      modifies this
      ensures Valid() && Rounds(cfg.order, tries') && asked == asked0 + All(tries') && All(tries') != []
      ensures replies == old(replies) + [reply]
      ensures reply == ServiceError ==>
                Calling(asked0, states0, tries', attempts + 1) && tried' == Elements(tries'.current)
      ensures forall e :: e in states ==>
                var leaked := reply == OtherError && !asynchronous && e == asked[|asked| - 1];
                states[e].outstanding == old(states)[e].outstanding + if leaked then 1 else 0
    {
      SomeUntried(cfg.order, tries);
      ghost var sent := All(tries);
      var e;
      reply, e := Attempt(asynchronous, tried);
      NextTry(cfg.order, tries, e);
      tried', tries' := tried + {e}, Extend(cfg.order, tries, e);
      if reply == ServiceError {
        ChargedNext(states0, old(states), states, sent, e);
        if |tried'| == |cfg.order| { tried' := {}; }
      }
    }

    /** One call with nobody else on the pool: it goes on as long as service errors come back, and the last reply
        decides how it ends. The requests go in rounds through all endpoints, and the call gives up only after
        all its attempts, when every endpoint has failed it. */
    method Embed(asynchronous: bool) returns (outcome: Outcome, ghost tries: Tries)
      requires Valid() && forall e :: e in states ==> states[e].outstanding >= 0
      modifies this
      ensures Valid() && Rounds(cfg.order, tries) && asked == old(asked) + All(tries) && All(tries) != []
      ensures old(replies) < replies && OnlyErrors(replies[|old(replies)|..|replies| - 1])
      ensures outcome == match replies[|replies| - 1]
                         case Success => Returned
                         case ServiceError => AllFailed
                         case OtherError => Raised
      ensures outcome == AllFailed ==>
                Made(cfg.order, tries) == Attempts(cfg)
                && forall e :: e in cfg.order ==> states[e].failures > old(states)[e].failures
      ensures forall e :: e in states ==>
                var leaked := outcome == Raised && !asynchronous && e == asked[|asked| - 1];
                states[e].outstanding == old(states)[e].outstanding + if leaked then 1 else 0
    {
      var tried := {};
      tries := Tries([], []);
      for attempt := 0 to Attempts(cfg)
        invariant Calling(old(asked), old(states), tries, attempt) && tried == Elements(tries.current)
        invariant old(replies) <= replies && |replies| == |old(replies)| + attempt
        invariant OnlyErrors(replies[|old(replies)|..])
      {
        var reply;
        reply, tried, tries := Turn(asynchronous, tried, old(asked), old(states), tries, attempt);
        if reply == OtherError { return Raised, tries; }
        if reply == Success { return Returned, tries; }
      }
      EnoughForAll(cfg.order, tries);
      return AllFailed, tries;
    }
  }
}
