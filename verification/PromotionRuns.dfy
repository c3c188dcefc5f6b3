/** What the promotion protocol keeps over every run: crashes between any two writes, crashed recoveries,
    changing collections, and all five operations in any order. */
module PromotionRuns {
  import opened Hashing
  import opened Wrappers
  import opened Promotion

  datatype Call =
    | Stage(candidate: Collection, release: Release)
    | Promote(confirmed: bool)
    | Rollback(confirmed: bool)
    | Finalize(retired: Collection, confirmed: bool)
    | Recover

  /** One call of the manager, made while the vector store holds `collections`, whose process dies after
      `writes` durable writes if its plan is longer than that. */
  datatype Event = Event(call: Call, collections: Collections, writes: nat)

  function Plan(fallback: Collection, s: Store, e: Event): Result<seq<Write>, Error> {
    match e.call
    case Stage(candidate, release) => PlanStage(s, candidate, release, e.collections)
    case Promote(confirmed) => PlanPromote(s, fallback, confirmed, e.collections)
    case Rollback(confirmed) => PlanRollback(s, confirmed, e.collections)
    case Finalize(retired, confirmed) => PlanFinalize(s, retired, confirmed)
    case Recover => PlanRecover(s)
  }

  function Exec(fallback: Collection, s: Store, e: Event): Store {
    match Plan(fallback, s, e)
    case Ok(plan) => Survive(s, plan, e.writes)
    case Err(_) => s
  }

  function Run(fallback: Collection, s: Store, events: seq<Event>): Store
    decreases |events|
  {
    if events == [] then s else Run(fallback, Exec(fallback, s, events[0]), events[1..])
  }

  const EMPTY := Store(None, None, None, None)

  // ---- The invariant ----

  /** The artifact root of the release built for a collection. */
  function RagDataDir(c: Collection): string {
    c + "/rag"
  }

  ghost predicate Paired(fallback: Collection, c: Collection, dir: Option<string>) {
    dir == Some(RagDataDir(c)) || (dir == None && c == fallback)
  }

  /** Every release handed to staging carries the artifact root of its own collection. */
  ghost predicate HonestRelease(e: Event) {
    e.call.Stage? ==> e.call.release.ragDataDir == Some(RagDataDir(e.call.release.collection))
  }

  function ActiveOf(c: Option<Current>): Option<Collection> {
    if c.Some? then Some(c.value.active) else None
  }

  ghost predicate RecordPaired(fallback: Collection, c: Current) {
    && Paired(fallback, c.active, c.ragDataDir)
    && match c.previous
       case Some(p) => Paired(fallback, p, c.previousRagDataDir)
       case None => c.previousRagDataDir == None
  }

  /** The active record still is the one the pending switch started from. */
  ghost predicate NotYetPublished(fallback: Collection, s: Store, t: Transaction) {
    match s.current
    case None => t.previous == fallback && t.previousRagDataDir == None
    case Some(c) => c.active == t.previous && c.ragDataDir == t.previousRagDataDir
  }

  /** The active record already is the one the pending switch publishes. */
  ghost predicate Published(s: Store, t: Transaction) {
    && s.current.Some?
    && var c := s.current.value;
       && c.active == t.candidate && c.previous == Some(t.previous)
       && c.ragDataDir == t.candidateRagDataDir && c.previousRagDataDir == t.previousRagDataDir
       && c.releaseManifest == t.candidateReleaseManifest
       && c.artifactFingerprint == t.candidateArtifactFingerprint
  }

  ghost predicate PendingOk(fallback: Collection, s: Store, t: Transaction) {
    && Paired(fallback, t.previous, t.previousRagDataDir)
    && Paired(fallback, t.candidate, t.candidateRagDataDir)
    && ((NotYetPublished(fallback, s, t) && s.alias in {ActiveOf(s.current), Some(t.candidate)})
        || (Published(s, t) && s.alias == Some(t.candidate)))
    && (t.phase == AliasSwitched ==> s.alias == Some(t.candidate))
  }

  ghost predicate Inv(fallback: Collection, s: Store) {
    && (s.staged.Some? ==> s.staged.value.ragDataDir == Some(RagDataDir(s.staged.value.candidate)))
    && (s.current.Some? ==> RecordPaired(fallback, s.current.value))
    && if Pending(s) then PendingOk(fallback, s, s.transaction.value) else s.alias == ActiveOf(s.current)
  }

  lemma SwitchKeepsInv(fallback: Collection, s: Store, t: Transaction, record: Current, writes: nat)
    requires Inv(fallback, s) && !Pending(s) && t.phase == Prepared
    requires Paired(fallback, t.previous, t.previousRagDataDir)
    requires Paired(fallback, t.candidate, t.candidateRagDataDir)
    requires NotYetPublished(fallback, s, t) && Published(s.(current := Some(record)), t)
    ensures Inv(fallback, Survive(s, SwitchPlan(t, record), writes))
  {
    SwitchSurvives(s, t, record, writes);
  }

  lemma StepKeepsInv(fallback: Collection, s: Store, e: Event)
    requires Inv(fallback, s) && HonestRelease(e)
    ensures Inv(fallback, Exec(fallback, s, e))
  {
    var plan := Plan(fallback, s, e);
    if plan.Ok? {
      match e.call
      case Stage(_, _) =>
        ShortPlanSurvives(s, plan.value, e.writes);
      case Promote(_) =>
        var points := e.collections[s.staged.value.candidate];
        SwitchKeepsInv(fallback, s, PromotionOf(s, s.staged.value, points, fallback),
                       PromotedRecord(s, s.staged.value, points, PreviousCollection(s, fallback)), e.writes);
      case Rollback(_) =>
        var points := e.collections[s.current.value.previous.value];
        SwitchKeepsInv(fallback, s, RollbackOf(s.current.value, points), SwappedRecord(s.current.value), e.writes);
      case Finalize(_, _) =>
        ShortPlanSurvives(s, plan.value, e.writes);
      case Recover =>
        RecoverCut(s, e.writes);
    }
  }

  lemma RecoverCut(s: Store, writes: nat)
    requires PlanRecover(s).Ok?
    ensures Pending(s) && s.alias == Some(s.transaction.value.candidate) ==>
              var t := s.transaction.value;
              var published := s.(current := Some(RecoveredRecord(t)));
              Survive(s, PlanRecover(s).value, writes)
                == if writes == 0 then s else if writes == 1 then published
                   else published.(transaction := Some(t.(phase := Committed)))
    ensures Pending(s) && s.alias != Some(s.transaction.value.candidate) ==>
              Survive(s, PlanRecover(s).value, writes)
                == if writes == 0 then s
                   else s.(transaction := Some(s.transaction.value.(phase := Aborted)))
    ensures !Pending(s) ==> Survive(s, PlanRecover(s).value, writes) == s
  {
    ShortPlanSurvives(s, PlanRecover(s).value, writes);
  }

  /** Every reachable state satisfies the invariant. */
  lemma {:induction false} RunKeepsInv(fallback: Collection, s: Store, events: seq<Event>)
    requires Inv(fallback, s)
    requires forall e | e in events :: HonestRelease(e)
    ensures Inv(fallback, Run(fallback, s, events))
    decreases |events|
  {
    if events != [] {
      StepKeepsInv(fallback, s, events[0]);
      RunKeepsInv(fallback, Exec(fallback, s, events[0]), events[1..]);
    }
  }

  /** The promotion state in every state reachable from an empty store: settled, the alias is absent exactly
      when no record exists and otherwise names the active collection; pending, it is where it was or at the
      candidate; data directories stay with their collections; and recovery is never refused. */
  lemma ReachableStates(fallback: Collection, events: seq<Event>)
    requires forall e | e in events :: HonestRelease(e)
    ensures var s := Run(fallback, EMPTY, events);
            && (!Pending(s) ==> (s.alias == None <==> s.current == None))
            && (!Pending(s) && s.current.Some? ==> s.alias == Some(s.current.value.active))
            && (Pending(s) ==>
                  var t := s.transaction.value;
                  s.alias in {Some(t.previous), Some(t.candidate)} || (s.alias == None && t.previous == fallback))
            && (s.current.Some? ==> s.alias.Some? && RecordPaired(fallback, s.current.value))
            && PlanRecover(s) != Err(UnexpectedCollection)
  {
    RunKeepsInv(fallback, EMPTY, events);
  }

  /** Every collection a state names. */
  function Names(s: Store): set<Collection> {
    (if s.alias.Some? then {s.alias.value} else {})
    + (if s.staged.Some? then {s.staged.value.candidate} else {})
    + (if s.current.Some? then RecordNames(s.current.value) else {})
    + (if s.transaction.Some? then {s.transaction.value.previous, s.transaction.value.candidate} else {})
  }

  function RecordNames(c: Current): set<Collection> {
    {c.active} + (if c.previous.Some? then {c.previous.value} else {})
  }

  /** A call brings no collection into the state except the fallback and one accepted for staging. */
  lemma NamesOnlyStaged(fallback: Collection, s: Store, e: Event)
    ensures Names(Exec(fallback, s, e))
         <= Names(s) + {fallback}
            + (if e.call.Stage? && Plan(fallback, s, e).Ok? then {e.call.candidate} else {})
  {
    var plan := Plan(fallback, s, e);
    if plan.Ok? {
      if e.call.Promote? || e.call.Rollback? {
        var t, record := SwitchOf(fallback, s, e);
        SwitchSurvives(s, t, record, e.writes);
      } else {
        ShortPlanSurvives(s, plan.value, e.writes);
      }
    }
  }

  // ---- Recovery equivalence ----

  datatype Observed = Observed(
    alias: Option<Collection>,
    active: Option<Collection>,
    previous: Option<Collection>,
    ragDataDir: Option<string>,
    previousRagDataDir: Option<string>,
    releaseManifest: Option<string>,
    artifactFingerprint: Option<Digest>)

  function Observe(s: Store): Observed {
    match s.current
    case None => Observed(s.alias, None, None, None, None, None, None)
    case Some(c) => Observed(s.alias, Some(c.active), c.previous, c.ragDataDir, c.previousRagDataDir,
                             c.releaseManifest, c.artifactFingerprint)
  }

  /** Recovery run `|deaths|` times, dying after `deaths[i]` writes, and then once to its end. */
  function Recovered(s: Store, deaths: seq<nat>): Store
    decreases |deaths|
  {
    match PlanRecover(s)
    case Err(_) => s
    case Ok(plan) => if deaths == [] then Complete(s, plan) else Recovered(Survive(s, plan, deaths[0]), deaths[1..])
  }

  /** However often recovery itself dies, finishing it gives the one result of an undisturbed recovery. */
  lemma {:induction false} RecoveryConfluent(s: Store, deaths: seq<nat>)
    requires PlanRecover(s).Ok?
    ensures Recovered(s, deaths) == Recovered(s, [])
    decreases |deaths|
  {
    RecoverCut(s, |PlanRecover(s).value|);
    if deaths != [] {
      RecoverCut(s, deaths[0]);
      var cut := Survive(s, PlanRecover(s).value, deaths[0]);
      RecoverCut(cut, |PlanRecover(cut).value|);
      RecoveryConfluent(cut, deaths[1..]);
    }
  }

  /** A promotion or rollback that dies after `writes` writes, followed by recovery however often it dies:
      the observable state is the uncrashed outcome exactly when the alias had reached the candidate, and
      the state before the operation otherwise; nothing stays pending. */
  lemma RecoveryEquivalence(fallback: Collection, s: Store, e: Event, deaths: seq<nat>)
    requires Inv(fallback, s) && !Pending(s)
    requires e.call.Promote? || e.call.Rollback?
    requires Plan(fallback, s, e).Ok?
    ensures var plan := Plan(fallback, s, e).value;
            var end := Recovered(Survive(s, plan, e.writes), deaths);
            var done := Complete(s, plan);
            var moved := e.writes >= 2 || (e.writes == 1 && s.alias == done.alias);
            && !Pending(end)
            && Observe(end) == (if moved then Observe(done) else Observe(s))
  {
    var t, record := SwitchOf(fallback, s, e);
    var plan := Plan(fallback, s, e).value;
    SwitchSurvives(s, t, record, e.writes);
    SwitchSurvives(s, t, record, 5);
    var cut := Survive(s, plan, e.writes);
    assert Inv(fallback, cut) by { StepKeepsInv(fallback, s, e); }
    RecoveryConfluent(cut, deaths);
    RecoverCut(cut, |PlanRecover(cut).value|);
  }

  /** The transaction and the record of a promotion or rollback. */
  lemma SwitchOf(fallback: Collection, s: Store, e: Event) returns (t: Transaction, record: Current)
    requires e.call.Promote? || e.call.Rollback?
    requires Plan(fallback, s, e).Ok?
    ensures Plan(fallback, s, e) == Ok(SwitchPlan(t, record)) && t.phase == Prepared
    ensures record.active == t.candidate && record.previous == Some(t.previous)
    ensures record.ragDataDir == t.candidateRagDataDir && record.previousRagDataDir == t.previousRagDataDir
    ensures record.releaseManifest == t.candidateReleaseManifest
    ensures record.artifactFingerprint == t.candidateArtifactFingerprint
    ensures {t.previous, t.candidate} <= Names(s) + {fallback}
  {
    if e.call.Promote? {
      var points := e.collections[s.staged.value.candidate];
      t := PromotionOf(s, s.staged.value, points, fallback);
      record := PromotedRecord(s, s.staged.value, points, PreviousCollection(s, fallback));
    } else {
      var c := s.current.value;
      t := RollbackOf(c, e.collections[c.previous.value]);
      record := SwappedRecord(c);
    }
  }

  /** What recovery loses. When it commits a switch, because the cut left the switch pending with the alias at the
      candidate, the record it writes is the uncrashed one exactly when the replaced release had neither manifest
      nor fingerprint, and the point count kept by the operation is the candidate's. This holds even for a crash
      after the record had already been written in full. */
  lemma RecoveredRecordExact(fallback: Collection, s: Store, e: Event, deaths: seq<nat>)
    requires Inv(fallback, s) && !Pending(s)
    requires e.call.Promote? || e.call.Rollback?
    requires Plan(fallback, s, e).Ok?
    requires var plan := Plan(fallback, s, e).value;
             var cut := Survive(s, plan, e.writes);
             Pending(cut) && cut.alias == Complete(s, plan).alias
    ensures var plan := Plan(fallback, s, e).value;
            var end := Recovered(Survive(s, plan, e.writes), deaths);
            var done := Complete(s, plan);
            end.current == done.current <==>
              && (s.current.Some? ==> s.current.value.releaseManifest == None
                                      && s.current.value.artifactFingerprint == None)
              && (e.call.Rollback? ==>
                    s.current.value.candidatePoints == e.collections[s.current.value.previous.value])
  {
    var t, record := SwitchOf(fallback, s, e);
    var plan := Plan(fallback, s, e).value;
    SwitchSurvives(s, t, record, e.writes);
    SwitchSurvives(s, t, record, 5);
    var cut := Survive(s, plan, e.writes);
    RecoveryConfluent(cut, deaths);
    RecoverCut(cut, |PlanRecover(cut).value|);
  }

  // ---- Where the alias moves ----

  /** The alias moves only by a promotion to a staged collection that has points at that moment, or by a rollback
      to the previous collection of the record, which exists. Nothing else moves it, recovery included. */
  lemma AliasMovesOnly(fallback: Collection, s: Store, e: Event)
    ensures var s' := Exec(fallback, s, e);
            s'.alias != s.alias ==>
              && s'.alias.Some? && s'.alias.value in e.collections
              && (e.call == Promote(true) || e.call == Rollback(true))
              && (e.call.Promote? ==>
                    e.collections[s'.alias.value] > 0 && s.staged.Some? && s.staged.value.candidate == s'.alias.value)
              && (e.call.Rollback? ==> s.current.Some? && s.current.value.previous == s'.alias)
  {
    if Plan(fallback, s, e).Ok? {
      if e.call.Promote? || e.call.Rollback? {
        var t, record := SwitchOf(fallback, s, e);
        SwitchSurvives(s, t, record, e.writes);
      } else {
        ShortPlanSurvives(s, Plan(fallback, s, e).value, e.writes);
      }
    }
  }

  /** In no run, wherever its calls die, does a promotion move the alias to a collection that is empty then. */
  lemma NeverPromotedEmpty(fallback: Collection, events: seq<Event>, i: nat)
    requires i < |events| && events[i].call.Promote?
    ensures var before, after := Run(fallback, EMPTY, events[..i]), Run(fallback, EMPTY, events[..i + 1]);
            after.alias != before.alias ==>
              after.alias.Some? && after.alias.value in events[i].collections
              && events[i].collections[after.alias.value] > 0
  {
    RunNext(fallback, EMPTY, events, i);
    AliasMovesOnly(fallback, Run(fallback, EMPTY, events[..i]), events[i]);
  }

  lemma {:induction false} RunNext(fallback: Collection, s: Store, events: seq<Event>, i: nat)
    requires i < |events|
    ensures Run(fallback, s, events[..i + 1]) == Exec(fallback, Run(fallback, s, events[..i]), events[i])
    decreases i
  {
    if i == 0 {
      assert events[..1][1..] == [] && events[..0] == [];
      assert Run(fallback, Exec(fallback, s, events[0]), []) == Exec(fallback, s, events[0]);
    } else {
      RunNext(fallback, Exec(fallback, s, events[0]), events[1..], i - 1);
      assert events[..i + 1][1..] == events[1..][..i] && events[..i][1..] == events[1..][..i - 1];
    }
  }

  // ---- Rollback ----

  /** Two uncrashed rollbacks are the identity on the alias and the whole active record. */
  lemma RollbackTwice(fallback: Collection, s: Store, collections: Collections)
    requires Inv(fallback, s) && !Pending(s)
    requires s.current.Some? && s.current.value.previous.Some?
    requires s.current.value.previous.value in collections && s.current.value.active in collections
    ensures var e := Event(Rollback(true), collections, 5);
            var once := Exec(fallback, s, e);
            var twice := Exec(fallback, once, e);
            && once.alias == s.current.value.previous && !Pending(once)
            && twice.alias == s.alias && twice.current == s.current && twice.staged == s.staged
  {
    var e := Event(Rollback(true), collections, 5);
    var t, record := SwitchOf(fallback, s, e);
    SwitchSurvives(s, t, record, 5);
    var once := Exec(fallback, s, e);
    var t2, record2 := SwitchOf(fallback, once, e);
    SwitchSurvives(once, t2, record2, 5);
  }

  /** The consequence of that loss: promote "a", promote "b" with a crash, recover, roll back, and the alias
      serves "a" again without the release manifest it was promoted with. */
  lemma RollbackAfterRecoveryLosesManifest()
    ensures var release := (c: string) =>
              Release(c, true, true, true, true, 1, c, Some(Text(c)), Some(RagDataDir(c)));
            var live := map["a" := 1, "b" := 1];
            var s := Run("main", EMPTY,
              [Event(Stage("a", release("a")), live, 1), Event(Promote(true), live, 5),
               Event(Stage("b", release("b")), live, 1), Event(Promote(true), live, 4),
               Event(Recover, live, 2), Event(Rollback(true), live, 5)]);
            s.alias == Some("a") && s.current.Some?
            && s.current.value.active == "a" && s.current.value.releaseManifest == None
            && s.current.value.ragDataDir == Some(RagDataDir("a"))
  {
    var release := (c: string) => Release(c, true, true, true, true, 1, c, Some(Text(c)), Some(RagDataDir(c)));
    var live := map["a" := 1, "b" := 1];
    var e0, e1 := Event(Stage("a", release("a")), live, 1), Event(Promote(true), live, 5);
    var e2, e3 := Event(Stage("b", release("b")), live, 1), Event(Promote(true), live, 4);
    var e4, e5 := Event(Recover, live, 2), Event(Rollback(true), live, 5);
    var s1 := StageOne(EMPTY, "a", release("a"), live);
    var t, record := SwitchOf("main", s1, e1);
    SwitchSurvives(s1, t, record, 5);
    var s2 := Exec("main", s1, e1);
    var s3 := StageOne(s2, "b", release("b"), live);
    var t3, record3 := SwitchOf("main", s3, e3);
    SwitchSurvives(s3, t3, record3, 4);
    var s4 := Exec("main", s3, e3);
    RecoverCut(s4, 2);
    var s5 := Exec("main", s4, e4);
    var t5, record5 := SwitchOf("main", s5, e5);
    SwitchSurvives(s5, t5, record5, 5);
    var s6 := Exec("main", s5, e5);
    calc {
      Run("main", EMPTY, [e0, e1, e2, e3, e4, e5]);
      { assert [e0, e1, e2, e3, e4, e5][1..] == [e1, e2, e3, e4, e5]; }
      Run("main", s1, [e1, e2, e3, e4, e5]);
      { assert [e1, e2, e3, e4, e5][1..] == [e2, e3, e4, e5]; }
      Run("main", s2, [e2, e3, e4, e5]);
      { assert [e2, e3, e4, e5][1..] == [e3, e4, e5]; }
      Run("main", s3, [e3, e4, e5]);
      { assert [e3, e4, e5][1..] == [e4, e5]; }
      Run("main", s4, [e4, e5]);
      { assert [e4, e5][1..] == [e5]; }
      Run("main", s5, [e5]);
      s6;
    }
  }

  lemma StageOne(s: Store, c: Collection, release: Release, live: Collections) returns (r: Store)
    requires PlanStage(s, c, release, live).Ok?
    ensures r == Exec("main", s, Event(Stage(c, release), live, 1))
    ensures r == s.(staged := Some(Staged(c, live[c], Some(release.manifestPath),
                                          release.artifactFingerprint, release.ragDataDir)))
  {
    r := Exec("main", s, Event(Stage(c, release), live, 1));
    ShortPlanSurvives(s, PlanStage(s, c, release, live).value, 1);
  }

  // ---- Retirement and readers ----

  /** Retirement needs no transaction: repeated after a crash at any point it ends where one call would. */
  lemma RetirementResumes(s: Store, retired: Collection, writes: nat)
    requires PlanFinalize(s, retired, true).Ok?
    requires s.current.value.previous.Some?
    ensures var plan := PlanFinalize(s, retired, true).value;
            var cut := Survive(s, plan, writes);
            var again := PlanFinalize(cut, retired, true);
            && again.Ok?
            && Complete(cut, again.value) == Complete(s, plan)
            && Complete(s, plan).current == Some(RetiredRecord(s.current.value))
            && PlanRollback(Complete(s, plan), true, map[]) == Err(NoPrevious)
  {
    var plan := PlanFinalize(s, retired, true).value;
    ShortPlanSurvives(s, plan, writes);
    ShortPlanSurvives(s, plan, |plan|);
    var cut := Survive(s, plan, writes);
    var again := PlanFinalize(cut, retired, true).value;
    ShortPlanSurvives(cut, again, |again|);
  }

  /** Readers take the alias target from the vector store and the data directory from the record. In a
      reachable state with a record the two belong together except exactly while a pending switch has moved
      the alias to another collection and not yet published the record. */
  lemma ReadersTornExactly(fallback: Collection, dir: string, s: Store)
    requires Inv(fallback, s) && s.current.Some?
    ensures s.alias.Some? && QueryCollection(s, fallback) == STABLE_ALIAS
    ensures s.alias != Some(s.current.value.active) <==>
              && Pending(s)
              && s.alias == Some(s.transaction.value.candidate)
              && s.transaction.value.candidate != s.current.value.active
    ensures s.alias == Some(s.current.value.active) && s.alias.value != fallback ==>
              ActiveDataDir(s, dir) == RagDataDir(s.alias.value)
  {
  }

  /** The collection that a query reaches: through the alias, if it is sent there. */
  function Reached(s: Store, fallback: Collection): Option<Collection> {
    if QueryCollection(s, fallback) == STABLE_ALIAS then s.alias else Some(QueryCollection(s, fallback))
  }

  /** In a reachable state with nothing pending, queries reach the active collection of the record, and before there
      is a record the fallback. */
  lemma QueriesReachActive(fallback: Collection, s: Store)
    requires Inv(fallback, s) && Settled(s) && fallback != STABLE_ALIAS
    ensures Reached(s, fallback) == Some(if s.current.Some? then s.current.value.active else fallback)
  {
  }
}
