/** Embedding calls of many threads on one pool. Selection and release hold the pool's lock, so each is one step;
    everything else of a call happens between them, in any interleaving. */
module EndpointCalls {
  import opened EndpointPool
  import opened Wrappers

  type CallId = int

  /** `holds` is the endpoint a call has taken and not given back, `errors` the endpoints that have answered it
      with a service error, in order. */
  datatype Call = Call(asynchronous: bool, tried: set<Endpoint>, tries: Tries, errors: seq<Endpoint>,
                       holds: Option<Endpoint>, done: Option<Outcome>)

  datatype World = World(pool: Pool, calls: map<CallId, Call>)

  datatype Step =
    | Begin(id: CallId, asynchronous: bool)
    | Acquire(id: CallId, now: int)
    | Answer(id: CallId, reply: Reply, now: int)

  ghost predicate Enabled(cfg: Config, w: World, step: Step) {
    match step
    case Begin(id, _) => id !in w.calls
    case Acquire(id, _) =>
      && id in w.calls && w.calls[id].done.None? && w.calls[id].holds.None?
      && Made(cfg.order, w.calls[id].tries) < Attempts(cfg)
    case Answer(id, _, _) => id in w.calls && w.calls[id].done.None? && w.calls[id].holds.Some?
  }

  function BeginStep(w: World, id: CallId, asynchronous: bool): World {
    w.(calls := w.calls[id := Call(asynchronous, {}, Tries([], []), [], None, None)])
  }

  function AcquireStep(cfg: Config, w: World, id: CallId, now: int): World
    requires Proper(cfg, w.pool) && id in w.calls
  {
    var c := w.calls[id];
    var e := Pick(cfg, w.pool, c.tried, now);
    World(AfterAcquire(cfg, w.pool, e),
          w.calls[id := c.(tried := c.tried + {e}, tries := Extend(cfg.order, c.tries, e), holds := Some(e))])
  }

  /** A failed attempt ends the call when it was the last one. */
  function AnswerStep(cfg: Config, w: World, id: CallId, reply: Reply, now: int): World
    requires Proper(cfg, w.pool) && id in w.calls && w.calls[id].holds.Some?
    requires w.calls[id].holds.value in cfg.order
  {
    var c := w.calls[id];
    match reply
    case Success =>
      World(AfterRelease(cfg, w.pool, c.holds.value, false, now),
            w.calls[id := c.(holds := None, done := Some(Returned))])
    case ServiceError =>
      World(AfterRelease(cfg, w.pool, c.holds.value, true, now),
            w.calls[id := c.(holds := None, errors := c.errors + [c.holds.value],
                             tried := if |c.tried| == |cfg.order| then {} else c.tried,
                             done := if Made(cfg.order, c.tries) == Attempts(cfg) then Some(AllFailed) else None)])
    case OtherError =>
      if c.asynchronous then
        World(AfterRelease(cfg, w.pool, c.holds.value, true, now),
              w.calls[id := c.(holds := None, done := Some(Raised))])
      else w.(calls := w.calls[id := c.(done := Some(Raised))])
  }

  ghost function Exec(cfg: Config, w: World, step: Step): World {
    if !(Proper(cfg, w.pool) && Enabled(cfg, w, step)) then w
    else
      match step
      case Begin(id, asynchronous) => BeginStep(w, id, asynchronous)
      case Acquire(id, now) => AcquireStep(cfg, w, id, now)
      case Answer(id, reply, now) =>
        if w.calls[id].holds.value in cfg.order then AnswerStep(cfg, w, id, reply, now) else w
  }

  ghost function Run(cfg: Config, w: World, steps: seq<Step>): World
    decreases |steps|
  {
    if steps == [] then w else Run(cfg, Exec(cfg, w, steps[0]), steps[1..])
  }

  /** The calls that have `e` and have not given it back. */
  function Holders(w: World, e: Endpoint): set<CallId> {
    set id | id in w.calls && w.calls[id].holds == Some(e)
  }

  function InFlight(w: World, e: Endpoint): set<CallId> {
    set id | id in w.calls && w.calls[id].done.None? && w.calls[id].holds == Some(e)
  }

  /** The calls that ended without giving `e` back. */
  function Leaked(w: World, e: Endpoint): set<CallId> {
    Holders(w, e) - InFlight(w, e)
  }

  ghost predicate CallOk(cfg: Config, c: Call) {
    && Rounds(cfg.order, c.tries)
    && Made(cfg.order, c.tries) <= Attempts(cfg)
    && (c.holds.Some? ==> c.holds.value in cfg.order)
    && (c.done.None? && c.holds.None? ==>
          c.tried == Elements(c.tries.current) && Made(cfg.order, c.tries) < Attempts(cfg))
    && (c.done.None? && c.holds.Some? ==>
          if |c.tried| == |cfg.order| then c.tries.current == [] else c.tried == Elements(c.tries.current))
    && (c.done.None? ==> All(c.tries) == if c.holds.Some? then c.errors + [c.holds.value] else c.errors)
    && (c.done == Some(AllFailed) ==> All(c.tries) == c.errors)
    && (c.done.Some? && c.holds.Some? ==> c.done == Some(Raised) && !c.asynchronous)
    && (c.done == Some(AllFailed) ==> Made(cfg.order, c.tries) == Attempts(cfg) && c.tries.full != [])
  }

  /** Outstanding counts are exactly the calls holding the endpoint. */
  ghost predicate Inv(cfg: Config, w: World) {
    && Proper(cfg, w.pool)
    && (forall id :: id in w.calls ==> CallOk(cfg, w.calls[id]))
    && (forall e :: e in cfg.order ==> w.pool.states[e].outstanding == |Holders(w, e)|)
  }

  lemma AcquireKeepsCall(cfg: Config, w: World, id: CallId, now: int)
    requires Inv(cfg, w) && Enabled(cfg, w, Acquire(id, now))
    ensures CallOk(cfg, AcquireStep(cfg, w, id, now).calls[id])
    ensures AcquireStep(cfg, w, id, now).calls[id].holds.value !in w.calls[id].tried
  {
    var c := w.calls[id];
    SomeUntried(cfg.order, c.tries);
    PickUntried(cfg, w.pool, c.tried, now);
    AttemptKeepsRounds(cfg.order, c.tries, Pick(cfg, w.pool, c.tried, now));
    NextTry(cfg.order, c.tries, Pick(cfg, w.pool, c.tried, now));
  }

  /** How the number of holders changes with one call. */
  lemma HoldersAfter(w: World, w': World, id: CallId, e: Endpoint)
    requires id in w.calls && id in w'.calls && w'.calls == w.calls[id := w'.calls[id]]
    ensures |Holders(w', e)| == |Holders(w, e)| - (if w.calls[id].holds == Some(e) then 1 else 0)
                                + if w'.calls[id].holds == Some(e) then 1 else 0
  {
    assert Holders(w', e) == Holders(w, e) - {id} + if w'.calls[id].holds == Some(e) then {id} else {};
  }

  lemma AcquireKeepsInv(cfg: Config, w: World, id: CallId, now: int)
    requires Inv(cfg, w) && Enabled(cfg, w, Acquire(id, now))
    ensures Inv(cfg, AcquireStep(cfg, w, id, now))
  {
    hide CallOk, Pick, Extend;
    AcquireKeepsCall(cfg, w, id, now);
    var w' := AcquireStep(cfg, w, id, now);
    forall e | e in cfg.order ensures w'.pool.states[e].outstanding == |Holders(w', e)| {
      HoldersAfter(w, w', id, e);
    }
    forall x | x in w'.calls && x != id ensures CallOk(cfg, w'.calls[x]) {
      assert CallOk(cfg, w.calls[x]);
    }
  }

  /** Whoever gives an endpoint back is counted, so the counter never has to be clamped at zero. */
  lemma NeverClamped(cfg: Config, w: World, id: CallId)
    requires Inv(cfg, w) && id in w.calls && w.calls[id].holds.Some?
    ensures w.pool.states[w.calls[id].holds.value].outstanding >= 1
  {
    assert id in Holders(w, w.calls[id].holds.value);
  }

  lemma AnswerKeepsCall(cfg: Config, w: World, id: CallId, reply: Reply, now: int)
    requires Inv(cfg, w) && Enabled(cfg, w, Answer(id, reply, now))
    ensures CallOk(cfg, AnswerStep(cfg, w, id, reply, now).calls[id])
  {
    var t := w.calls[id].tries;
    assert t.full == [] ==> Made(cfg.order, t) == |t.current|;
  }

  lemma AnswerKeepsInv(cfg: Config, w: World, id: CallId, reply: Reply, now: int)
    requires Inv(cfg, w) && Enabled(cfg, w, Answer(id, reply, now))
    ensures Inv(cfg, AnswerStep(cfg, w, id, reply, now))
  {
    AnswerKeepsCall(cfg, w, id, reply, now);
    NeverClamped(cfg, w, id);
    var w' := AnswerStep(cfg, w, id, reply, now);
    forall e | e in cfg.order ensures w'.pool.states[e].outstanding == |Holders(w', e)| {
      HoldersAfter(w, w', id, e);
    }
  }

  lemma StepKeepsInv(cfg: Config, w: World, step: Step)
    requires Inv(cfg, w)
    ensures Inv(cfg, Exec(cfg, w, step))
  {
    if Enabled(cfg, w, step) {
      match step
      case Begin(id, asynchronous) =>
        var w' := BeginStep(w, id, asynchronous);
        forall e | e in cfg.order ensures Holders(w', e) == Holders(w, e) {}
      case Acquire(id, now) => AcquireKeepsInv(cfg, w, id, now);
      case Answer(id, reply, now) => AnswerKeepsInv(cfg, w, id, reply, now);
    }
  }

  lemma {:induction false} RunKeepsInv(cfg: Config, w: World, steps: seq<Step>)
    requires Inv(cfg, w)
    ensures Inv(cfg, Run(cfg, w, steps))
    decreases |steps|
  {
    if steps != [] {
      StepKeepsInv(cfg, w, steps[0]);
      RunKeepsInv(cfg, Exec(cfg, w, steps[0]), steps[1..]);
    }
  }

  /** In every interleaving the outstanding count of an endpoint is its calls in flight plus the calls that
      leaked it, and a leak is a synchronous call whose client raised something else than a service error. */
  lemma OutstandingIsInFlight(cfg: Config, w: World, steps: seq<Step>, e: Endpoint)
    requires Inv(cfg, w) && e in cfg.order
    ensures var w' := Run(cfg, w, steps);
            && e in w'.pool.states
            && w'.pool.states[e].outstanding == |InFlight(w', e)| + |Leaked(w', e)|
            && forall id :: id in Leaked(w', e) ==> w'.calls[id].done == Some(Raised) && !w'.calls[id].asynchronous
  {
    RunKeepsInv(cfg, w, steps);
    var w' := Run(cfg, w, steps);
    assert Holders(w', e) == InFlight(w', e) + Leaked(w', e);
  }

  /** In every interleaving a call goes through all endpoints before it repeats one, and it reports that all
      failed only after the last of its attempts, every one of which a service error has answered: every
      endpoint has failed the call at least once. */
  lemma EveryEndpointFailed(cfg: Config, w: World, steps: seq<Step>, id: CallId)
    requires Inv(cfg, w) && id in Run(cfg, w, steps).calls
    ensures var c := Run(cfg, w, steps).calls[id];
            && Rounds(cfg.order, c.tries)
            && (c.done == Some(AllFailed) ==>
                  Made(cfg.order, c.tries) == Attempts(cfg) && c.errors == All(c.tries)
                  && forall e :: e in cfg.order ==> e in c.errors)
  {
    RunKeepsInv(cfg, w, steps);
    var c := Run(cfg, w, steps).calls[id];
    assert CallOk(cfg, c);
    if c.done == Some(AllFailed) { EnoughForAll(cfg.order, c.tries); }
  }

  /** An answered call keeps its endpoint exactly when it is synchronous and its client raised something else
      than a service error; the endpoint then counts it for good, since no step of a finished call is enabled. */
  lemma LeaksExactly(cfg: Config, w: World, id: CallId, reply: Reply, now: int)
    requires Inv(cfg, w) && Enabled(cfg, w, Answer(id, reply, now))
    ensures var e, w' := w.calls[id].holds.value, AnswerStep(cfg, w, id, reply, now);
            && (id in Leaked(w', e) <==> reply == OtherError && !w.calls[id].asynchronous)
            && e in w'.pool.states
            && w'.pool.states[e].outstanding
               == w.pool.states[e].outstanding - (if id in Leaked(w', e) then 0 else 1)
            && (id in Leaked(w', e) ==> forall step :: Enabled(cfg, w', step) ==> step.id != id)
  {
    NeverClamped(cfg, w, id);
  }

  /** A call that begins may try an endpoint at once. */
  lemma BeginOpens(cfg: Config, w: World, id: CallId, asynchronous: bool, now: int)
    requires Inv(cfg, w) && id !in w.calls
    ensures var w' := BeginStep(w, id, asynchronous);
            && Enabled(cfg, w', Acquire(id, now)) && w'.calls[id].asynchronous == asynchronous
            && w'.calls[id].tried == {} && w'.calls[id].errors == []
  {
    assert Made(cfg.order, Tries([], [])) == 0;
  }

  /** The answer decides how its call goes on: a success returns, a service error ends it exactly after its last
      attempt and otherwise lets it try an endpoint again, and anything else is raised. */
  lemma AnswerEnds(cfg: Config, w: World, id: CallId, reply: Reply, now: int)
    requires Inv(cfg, w) && Enabled(cfg, w, Answer(id, reply, now))
    ensures var c, c' := w.calls[id], AnswerStep(cfg, w, id, reply, now).calls[id];
            && (c'.done == Some(Returned) <==> reply == Success)
            && (c'.done == Some(Raised) <==> reply == OtherError)
            && (c'.done == Some(AllFailed) <==> reply == ServiceError && |All(c.tries)| == Attempts(cfg))
            && (reply == ServiceError && c'.done == None ==>
                  forall again :: Enabled(cfg, AnswerStep(cfg, w, id, reply, now), Acquire(id, again)))
  {
    assert CallOk(cfg, w.calls[id]);
    MadeIsAll(cfg.order, w.calls[id].tries);
  }

  /** The attempts made are all tries. */
  lemma MadeIsAll(order: seq<Endpoint>, t: Tries)
    requires order != [] && Rounds(order, t) && Distinct(order)
    ensures Made(order, t) == |All(t)|
  {
    forall round | round in t.full ensures |round| == |order| {
      DistinctSize(round);
      DistinctSize(order);
    }
    FlatSize(t.full, |order|);
  }

  lemma {:induction false} FlatSize(rounds: seq<seq<Endpoint>>, size: nat)
    requires forall round :: round in rounds ==> |round| == size
    ensures |Flat(rounds)| == |rounds| * size
    decreases |rounds|
  {
    if rounds != [] {
      var n := |rounds| - 1;
      FlatSize(rounds[..n], size);
      assert rounds[n] in rounds;
      assert (n + 1) * size == n * size + size;
    }
  }

  // ---- What the counters count ----

  /** This step is an answer after which its call gives `e` back, having failed or not. */
  ghost predicate GivesBack(cfg: Config, w: World, step: Step, e: Endpoint, failed: bool) {
    && Enabled(cfg, w, step) && step.Answer? && w.calls[step.id].holds == Some(e)
    && failed == (step.reply != Success) && (step.reply == OtherError ==> w.calls[step.id].asynchronous)
  }

  ghost predicate Picks(cfg: Config, w: World, step: Step) {
    Enabled(cfg, w, step) && step.Acquire?
  }

  /** How often `e` is given back on a run, failed or not. */
  ghost function GivenBack(cfg: Config, w: World, steps: seq<Step>, e: Endpoint, failed: bool): nat
    decreases |steps|
  {
    if steps == [] then 0
    else
      (if GivesBack(cfg, w, steps[0], e, failed) then 1 else 0)
      + GivenBack(cfg, Exec(cfg, w, steps[0]), steps[1..], e, failed)
  }

  ghost function Picked(cfg: Config, w: World, steps: seq<Step>): nat
    decreases |steps|
  {
    if steps == [] then 0
    else (if Picks(cfg, w, steps[0]) then 1 else 0) + Picked(cfg, Exec(cfg, w, steps[0]), steps[1..])
  }

  /** A step counts a batch or a failure for the endpoint it gives back and for no other, a failure starts its
      quarantine and nothing else moves one, and the turn advances with every pick, if picks go in turn. */
  lemma StepCounts(cfg: Config, w: World, step: Step, e: Endpoint)
    requires Inv(cfg, w) && e in cfg.order
    ensures var w' := Exec(cfg, w, step);
            && e in w'.pool.states
            && w'.pool.states[e].batches
               == w.pool.states[e].batches + (if GivesBack(cfg, w, step, e, false) then 1 else 0)
            && w'.pool.states[e].failures
               == w.pool.states[e].failures + (if GivesBack(cfg, w, step, e, true) then 1 else 0)
            && w'.pool.states[e].quarantinedUntil
               == (if GivesBack(cfg, w, step, e, true) then step.now + cfg.quarantine
                   else w.pool.states[e].quarantinedUntil)
            && w'.pool.cursor == w.pool.cursor + if Picks(cfg, w, step) && cfg.roundRobin then 1 else 0
  {
    hide Pick, Extend, Made;
    if step.Answer? && Enabled(cfg, w, step) { assert CallOk(cfg, w.calls[step.id]); }
  }

  /** In every interleaving the batches and failures of an endpoint are the answers after which it was given back,
      and the turn is the number of picks. */
  lemma {:induction false} CountersCountAnswers(cfg: Config, w: World, steps: seq<Step>, e: Endpoint)
    requires Inv(cfg, w) && e in cfg.order
    ensures var w' := Run(cfg, w, steps);
            && e in w'.pool.states
            && w'.pool.states[e].batches == w.pool.states[e].batches + GivenBack(cfg, w, steps, e, false)
            && w'.pool.states[e].failures == w.pool.states[e].failures + GivenBack(cfg, w, steps, e, true)
            && w'.pool.cursor == w.pool.cursor + if cfg.roundRobin then Picked(cfg, w, steps) else 0
    decreases |steps|
  {
    hide Exec, Inv, GivesBack, Picks;
    if steps != [] {
      StepKeepsInv(cfg, w, steps[0]);
      StepCounts(cfg, w, steps[0], e);
      CountersCountAnswers(cfg, Exec(cfg, w, steps[0]), steps[1..], e);
    } else {
      ProperPool(cfg, w);
    }
  }

  /** An endpoint that has just failed is left alone until its quarantine ends, as long as another that the call has
      not tried is free. */
  lemma FailedEndpointRests(cfg: Config, w: World, step: Step, e: Endpoint, other: Endpoint, tried: set<Endpoint>,
                            now: int)
    requires Inv(cfg, w) && e in cfg.order && GivesBack(cfg, w, step, e, true) && now < step.now + cfg.quarantine
    requires other in cfg.order && other != e && other !in tried
    requires w.pool.states[other].quarantinedUntil <= now
    ensures var w' := Exec(cfg, w, step);
            Proper(cfg, w'.pool) && Pick(cfg, w'.pool, tried, now) != e
  {
    hide Inv, Exec, Pick, GivesBack;
    StepKeepsInv(cfg, w, step);
    ProperPool(cfg, w);
    ProperPool(cfg, Exec(cfg, w, step));
    StepCounts(cfg, w, step, e);
    StepCounts(cfg, w, step, other);
    GivesBackOne(cfg, w, step, e, other);
    PickUntried(cfg, Exec(cfg, w, step).pool, tried, now);
  }

  lemma ProperPool(cfg: Config, w: World)
    requires Inv(cfg, w)
    ensures Proper(cfg, w.pool)
  {
  }

  lemma GivesBackOne(cfg: Config, w: World, step: Step, e: Endpoint, other: Endpoint)
    requires GivesBack(cfg, w, step, e, true) && other != e
    ensures !GivesBack(cfg, w, step, other, true) && step.Answer?
  {
  }
}
