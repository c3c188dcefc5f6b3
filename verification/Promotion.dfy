/** The write-ahead protocol that moves a stable index alias between physical collections.

    Durable state is the alias held by the vector store and three JSON files. Each atomic file
    replacement, unlink or alias update is one `Write`; an operation is a plan of writes computed from
    the state it reads, and an operation interrupted by a crash performs a prefix of its plan. */
module Promotion {
  import opened Hashing
  import opened Wrappers

  type Collection = string

  datatype Staged = Staged(
    candidate: Collection,
    points: nat,
    releaseManifest: Option<string>,
    artifactFingerprint: Option<Digest>,
    ragDataDir: Option<string>)

  datatype Current = Current(
    active: Collection,
    previous: Option<Collection>,
    ragDataDir: Option<string>,
    previousRagDataDir: Option<string>,
    releaseManifest: Option<string>,
    previousReleaseManifest: Option<string>,
    artifactFingerprint: Option<Digest>,
    previousArtifactFingerprint: Option<Digest>,
    candidatePoints: nat)

  datatype Phase = Prepared | AliasSwitched | Committed | Aborted

  datatype Transaction = Transaction(
    phase: Phase,
    previous: Collection,
    candidate: Collection,
    candidatePoints: nat,
    previousRagDataDir: Option<string>,
    candidateRagDataDir: Option<string>,
    candidateReleaseManifest: Option<string>,
    candidateArtifactFingerprint: Option<Digest>)

  datatype Store = Store(
    alias: Option<Collection>,
    staged: Option<Staged>,
    current: Option<Current>,
    transaction: Option<Transaction>)

  /** The fields of a release manifest that staging reads. */
  datatype Release = Release(
    collection: Collection,
    validated: bool,
    promotionEligible: bool,
    validationPassed: bool,
    qdrantGreen: bool,
    validatedPoints: nat,
    manifestPath: string,
    artifactFingerprint: Option<Digest>,
    ragDataDir: Option<string>)

  datatype Error =
    | Unconfirmed | PendingTransaction | NoStagedCandidate | MissingCollection | EmptyCandidate
    | NotPhysical | NotValidated | NotEligible | WrongCollection | ValidationFailed | NotGreen
    | PointCountChanged | NoPrevious | NoActiveState | AliasDiffers | NotRollbackTarget
    | UnrelatedStaged | UnexpectedCollection | Interrupted

  datatype Write =
    | WriteStaged(staged: Staged)
    | UnlinkStaged
    | WriteCurrent(current: Current)
    | WriteTransaction(transaction: Transaction)
    | MoveAlias(target: Collection)

  /** The collections the vector store holds, with their point counts. */
  type Collections = map<Collection, nat>

  const STABLE_ALIAS: Collection := "knowledgehub_current"

  function Apply(s: Store, w: Write): Store {
    match w
    case WriteStaged(v) => s.(staged := Some(v))
    case UnlinkStaged => s.(staged := None)
    case WriteCurrent(v) => s.(current := Some(v))
    case WriteTransaction(v) => s.(transaction := Some(v))
    case MoveAlias(c) => s.(alias := Some(c))
  }

  /** The state left by a process that dies after `writes` durable writes of its plan. */
  function Survive(s: Store, plan: seq<Write>, writes: nat): Store
    decreases |plan|
  {
    if plan == [] || writes == 0 then s else Survive(Apply(s, plan[0]), plan[1..], writes - 1)
  }

  /** The state after the whole plan. */
  function Complete(s: Store, plan: seq<Write>): Store {
    Survive(s, plan, |plan|)
  }

  predicate Pending(s: Store) {
    s.transaction.Some? && s.transaction.value.phase in {Prepared, AliasSwitched}
  }

  /** The record that promoting the staged candidate publishes. */
  function PromotedRecord(s: Store, staged: Staged, points: nat, previous: Collection): Current {
    var dir := if s.current.Some? then s.current.value.ragDataDir else None;
    var manifest := if s.current.Some? then s.current.value.releaseManifest else None;
    var fingerprint := if s.current.Some? then s.current.value.artifactFingerprint else None;
    Current(staged.candidate, Some(previous), staged.ragDataDir, dir,
            staged.releaseManifest, manifest, staged.artifactFingerprint, fingerprint, points)
  }

  function PreviousCollection(s: Store, fallback: Collection): Collection {
    if s.alias.Some? then s.alias.value else if s.current.Some? then s.current.value.active else fallback
  }

  /** The record that swaps the active and previous halves. */
  function SwappedRecord(c: Current): Current
    requires c.previous.Some?
  {
    Current(c.previous.value, Some(c.active), c.previousRagDataDir, c.ragDataDir,
            c.previousReleaseManifest, c.releaseManifest,
            c.previousArtifactFingerprint, c.artifactFingerprint, c.candidatePoints)
  }

  /** The record that recovery reconstructs: neither the transaction nor the staged record carries the
      previous release manifest and fingerprint. */
  function RecoveredRecord(t: Transaction): Current {
    Current(t.candidate, Some(t.previous), t.candidateRagDataDir, t.previousRagDataDir,
            t.candidateReleaseManifest, None, t.candidateArtifactFingerprint, None, t.candidatePoints)
  }

  function PlanStage(s: Store, candidate: Collection, release: Release, collections: Collections)
    : Result<seq<Write>, Error>
  {
    if Pending(s) then Err(PendingTransaction)
    else if candidate == STABLE_ALIAS then Err(NotPhysical)
    else if candidate !in collections then Err(MissingCollection)
    else if collections[candidate] == 0 then Err(EmptyCandidate)
    else if !release.validated then Err(NotValidated)
    else if !release.promotionEligible then Err(NotEligible)
    else if release.collection != candidate then Err(WrongCollection)
    else if !release.validationPassed then Err(ValidationFailed)
    else if !release.qdrantGreen then Err(NotGreen)
    else if release.validatedPoints != collections[candidate] then Err(PointCountChanged)
    else Ok([WriteStaged(Staged(candidate, collections[candidate], Some(release.manifestPath),
                                release.artifactFingerprint, release.ragDataDir))])
  }

  /** Prepare, move the alias, note the move, publish the record, commit. */
  function SwitchPlan(t: Transaction, record: Current): seq<Write> {
    [WriteTransaction(t.(phase := Prepared)), MoveAlias(t.candidate),
     WriteTransaction(t.(phase := AliasSwitched)), WriteCurrent(record),
     WriteTransaction(t.(phase := Committed))]
  }

  /** A switch cut short, state by state. */
  function SwitchCut(s: Store, t: Transaction, record: Current, writes: nat): Store {
    if writes == 0 then s
    else if writes == 1 then s.(transaction := Some(t.(phase := Prepared)))
    else if writes == 2 then s.(transaction := Some(t.(phase := Prepared)), alias := Some(t.candidate))
    else if writes == 3 then s.(transaction := Some(t.(phase := AliasSwitched)), alias := Some(t.candidate))
    else if writes == 4 then
      s.(transaction := Some(t.(phase := AliasSwitched)), alias := Some(t.candidate), current := Some(record))
    else
      s.(transaction := Some(t.(phase := Committed)), alias := Some(t.candidate), current := Some(record))
  }

  lemma FirstWrite(s: Store, w: Write, rest: seq<Write>, writes: nat)
    ensures Survive(s, [w] + rest, writes)
         == if writes == 0 then s else Survive(Apply(s, w), rest, writes - 1)
  {
    assert ([w] + rest)[1..] == rest;
  }

  lemma ShortPlanSurvives(s: Store, plan: seq<Write>, writes: nat)
    requires |plan| <= 2
    ensures Survive(s, plan, writes)
         == if writes == 0 || plan == [] then s
            else if writes == 1 || |plan| == 1 then Apply(s, plan[0])
            else Apply(Apply(s, plan[0]), plan[1])
  {
    if plan != [] {
      var rest := plan[1..];
      assert plan == [plan[0]] + rest;
      FirstWrite(s, plan[0], rest, writes);
      if writes > 0 && rest != [] {
        assert rest == [plan[1]] + [];
        FirstWrite(Apply(s, plan[0]), plan[1], [], writes - 1);
      }
    }
  }

  lemma SwitchSurvives(s: Store, t: Transaction, record: Current, writes: nat)
    ensures Survive(s, SwitchPlan(t, record), writes) == SwitchCut(s, t, record, writes)
  {
    var a, b, c, d, e := WriteTransaction(t.(phase := Prepared)), MoveAlias(t.candidate),
      WriteTransaction(t.(phase := AliasSwitched)), WriteCurrent(record),
      WriteTransaction(t.(phase := Committed));
    assert [a, b, c, d, e] == [a] + [b, c, d, e] && [b, c, d, e] == [b] + [c, d, e];
    assert [c, d, e] == [c] + [d, e];
    FirstWrite(s, a, [b, c, d, e], writes);
    var s1 := Apply(s, a);
    var s2 := Apply(s1, b);
    if writes > 0 { FirstWrite(s1, b, [c, d, e], writes - 1); }
    if writes > 1 { FirstWrite(s2, c, [d, e], writes - 2); }
    if writes > 2 { ShortPlanSurvives(Apply(s2, c), [d, e], writes - 3); }
  }

  function PromotionOf(s: Store, staged: Staged, points: nat, fallback: Collection): Transaction {
    Transaction(Prepared, PreviousCollection(s, fallback), staged.candidate, points,
                if s.current.Some? then s.current.value.ragDataDir else None,
                staged.ragDataDir, staged.releaseManifest, staged.artifactFingerprint)
  }

  function PlanPromote(s: Store, fallback: Collection, confirmed: bool, collections: Collections)
    : Result<seq<Write>, Error>
  {
    if !confirmed then Err(Unconfirmed)
    else if Pending(s) then Err(PendingTransaction)
    else if s.staged.None? then Err(NoStagedCandidate)
    else if s.staged.value.candidate !in collections then Err(MissingCollection)
    else if collections[s.staged.value.candidate] == 0 then Err(EmptyCandidate)
    else
      var points := collections[s.staged.value.candidate];
      Ok(SwitchPlan(PromotionOf(s, s.staged.value, points, fallback),
                    PromotedRecord(s, s.staged.value, points, PreviousCollection(s, fallback))))
  }

  function RollbackOf(c: Current, points: nat): Transaction
    requires c.previous.Some?
  {
    Transaction(Prepared, c.active, c.previous.value, points, c.ragDataDir, c.previousRagDataDir,
                c.previousReleaseManifest, c.previousArtifactFingerprint)
  }

  function PlanRollback(s: Store, confirmed: bool, collections: Collections): Result<seq<Write>, Error> {
    if !confirmed then Err(Unconfirmed)
    else if Pending(s) then Err(PendingTransaction)
    else if s.current.None? || s.current.value.previous.None? then Err(NoPrevious)
    else if s.current.value.previous.value !in collections then Err(MissingCollection)
    else Ok(SwitchPlan(RollbackOf(s.current.value, collections[s.current.value.previous.value]),
                       SwappedRecord(s.current.value)))
  }

  function RetiredRecord(c: Current): Current {
    c.(previous := None, previousRagDataDir := None, previousReleaseManifest := None,
       previousArtifactFingerprint := None)
  }

  function PlanFinalize(s: Store, retired: Collection, confirmed: bool): Result<seq<Write>, Error> {
    if !confirmed then Err(Unconfirmed)
    else if Pending(s) then Err(PendingTransaction)
    else if s.current.None? then Err(NoActiveState)
    else if s.alias != Some(s.current.value.active) then Err(AliasDiffers)
    else
      var unlink := if s.staged.Some? && s.staged.value.candidate == retired then [UnlinkStaged] else [];
      if s.current.value.previous.None? then Ok(unlink)
      else if s.current.value.previous.value != retired || s.current.value.active == retired then
        Err(NotRollbackTarget)
      else if s.staged.Some? && s.staged.value.candidate !in {retired, s.current.value.active} then
        Err(UnrelatedStaged)
      else Ok(unlink + [WriteCurrent(RetiredRecord(s.current.value))])
  }

  function PlanRecover(s: Store): Result<seq<Write>, Error> {
    if !Pending(s) then Ok([])
    else
      var t := s.transaction.value;
      if s.alias == Some(t.candidate) then
        Ok([WriteCurrent(RecoveredRecord(t)), WriteTransaction(t.(phase := Committed))])
      else if s.alias in {Some(t.previous), None} then
        Ok([WriteTransaction(t.(phase := Aborted))])
      else Err(UnexpectedCollection)
  }

  // ---- What each call does, in terms of the state before it ----

  /** No transaction is open. */
  predicate Settled(s: Store) {
    s.transaction == None || s.transaction.value.phase == Committed || s.transaction.value.phase == Aborted
  }

  /** Staging goes ahead exactly for a physical, nonempty collection with a validated, eligible, valid and green
      release of its own whose validated point count is the live one. It then records just that. */
  lemma StageGoesAheadExactly(s: Store, candidate: Collection, release: Release, collections: Collections,
                              writes: nat)
    ensures var plan := PlanStage(s, candidate, release, collections);
            && (plan.Ok? <==>
                  && Settled(s) && candidate != "knowledgehub_current"
                  && candidate in collections && collections[candidate] > 0
                  && release.validated && release.promotionEligible && release.collection == candidate
                  && release.validationPassed && release.qdrantGreen
                  && release.validatedPoints == collections[candidate])
            && (plan.Ok? && writes > 0 ==>
                  var end := Survive(s, plan.value, writes);
                  && end.alias == s.alias && end.current == s.current && end.transaction == s.transaction
                  && end.staged == Some(Staged(candidate, collections[candidate], Some(release.manifestPath),
                                               release.artifactFingerprint, release.ragDataDir)))
            && (plan.Ok? && writes == 0 ==> Survive(s, plan.value, writes) == s)
  {
    var plan := PlanStage(s, candidate, release, collections);
    if plan.Ok? { ShortPlanSurvives(s, plan.value, writes); }
  }

  /** A field of the active record, if there is a record. */
  function OfCurrent<T>(s: Store, field: Current -> Option<T>): Option<T> {
    if s.current.Some? then field(s.current.value) else None
  }

  /** Promotion goes ahead exactly if it is confirmed, nothing is pending, and the staged candidate exists with at
      least one point now. */
  lemma PromoteGoesAheadExactly(s: Store, fallback: Collection, confirmed: bool, collections: Collections)
    ensures PlanPromote(s, fallback, confirmed, collections).Ok? <==>
              && confirmed && Settled(s) && s.staged.Some?
              && s.staged.value.candidate in collections && collections[s.staged.value.candidate] > 0
  {
  }

  /** Where the alias points, or else the record, or else the fallback. */
  predicate WasServed(s: Store, fallback: Collection, c: Collection) {
    || s.alias == Some(c)
    || (s.alias == None && s.current.Some? && s.current.value.active == c)
    || (s.alias == None && s.current == None && fallback == c)
  }

  /** A completed promotion serves the candidate at its live point count and remembers what it replaced. */
  lemma PromotedState(s: Store, fallback: Collection, confirmed: bool, collections: Collections, writes: nat)
    requires PlanPromote(s, fallback, confirmed, collections).Ok? && writes >= 5
    ensures var end := Survive(s, PlanPromote(s, fallback, confirmed, collections).value, writes);
            var staged := s.staged.value;
            && end.transaction.Some? && end.transaction.value.phase == Committed && end.staged == s.staged
            && end.alias == Some(staged.candidate) && end.current.Some?
            && var c := end.current.value;
               && c.active == staged.candidate && c.candidatePoints == collections[staged.candidate]
               && c.ragDataDir == staged.ragDataDir && c.releaseManifest == staged.releaseManifest
               && c.artifactFingerprint == staged.artifactFingerprint
               && c.previous.Some? && WasServed(s, fallback, c.previous.value)
               && c.previousRagDataDir == OfCurrent(s, (x: Current) => x.ragDataDir)
               && c.previousReleaseManifest == OfCurrent(s, (x: Current) => x.releaseManifest)
               && c.previousArtifactFingerprint == OfCurrent(s, (x: Current) => x.artifactFingerprint)
  {
    var staged := s.staged.value;
    var points := collections[staged.candidate];
    SwitchSurvives(s, PromotionOf(s, staged, points, fallback),
                   PromotedRecord(s, staged, points, PreviousCollection(s, fallback)), writes);
  }

  /** Rollback goes ahead exactly if it is confirmed, nothing is pending, and the previous collection exists; it
      may be empty. A completed one exchanges the halves of the record. */
  lemma RollbackGoesAheadExactly(s: Store, confirmed: bool, collections: Collections, writes: nat)
    ensures var plan := PlanRollback(s, confirmed, collections);
            && (plan.Ok? <==>
                  && confirmed && Settled(s) && s.current.Some? && s.current.value.previous.Some?
                  && s.current.value.previous.value in collections)
            && (plan.Ok? && writes >= 5 ==>
                  var end, was := Survive(s, plan.value, writes), s.current.value;
                  && end.transaction.Some? && end.transaction.value.phase == Committed && end.staged == s.staged
                  && end.transaction.value.candidatePoints == collections[was.previous.value]
                  && end.alias == was.previous && end.current.Some?
                  && var c := end.current.value;
                     && Some(c.active) == was.previous && c.previous == Some(was.active)
                     && c.ragDataDir == was.previousRagDataDir && c.previousRagDataDir == was.ragDataDir
                     && c.releaseManifest == was.previousReleaseManifest
                     && c.previousReleaseManifest == was.releaseManifest
                     && c.artifactFingerprint == was.previousArtifactFingerprint
                     && c.previousArtifactFingerprint == was.artifactFingerprint
                     && c.candidatePoints == was.candidatePoints)
  {
    if PlanRollback(s, confirmed, collections).Ok? {
      var c := s.current.value;
      SwitchSurvives(s, RollbackOf(c, collections[c.previous.value]), SwappedRecord(c), writes);
    }
  }

  /** The staged record is in the way of retiring a collection. */
  predicate UnrelatedStage(s: Store, retired: Collection) {
    s.staged.Some? && s.staged.value.candidate != retired
    && !(s.current.Some? && s.staged.value.candidate == s.current.value.active)
  }

  /** Retirement goes ahead exactly if it is confirmed, nothing is pending, the alias agrees with the record, and
      there is no previous collection or it is the retired one, which is not active, with nothing unrelated
      staged. A completed one forgets the previous half and a staged record of the retired collection. */
  lemma FinalizeGoesAheadExactly(s: Store, retired: Collection, confirmed: bool, writes: nat)
    ensures var plan := PlanFinalize(s, retired, confirmed);
            && (plan.Ok? <==>
                  && confirmed && Settled(s) && s.current.Some? && s.alias == Some(s.current.value.active)
                  && (s.current.value.previous == None
                      || (s.current.value.previous == Some(retired) && s.current.value.active != retired
                          && !UnrelatedStage(s, retired))))
            && (plan.Ok? && writes >= 2 ==>
                  var end, was := Survive(s, plan.value, writes), s.current.value;
                  && end.alias == s.alias && end.transaction == s.transaction
                  && end.staged == (if s.staged.Some? && s.staged.value.candidate == retired then None else s.staged)
                  && end.current.Some?
                  && var c := end.current.value;
                     && (was.previous == None ==> c == was)
                     && (was.previous.Some? ==>
                           && c.previous == None && c.previousRagDataDir == None && c.previousReleaseManifest == None
                           && c.previousArtifactFingerprint == None
                           && c.active == was.active && c.ragDataDir == was.ragDataDir
                           && c.releaseManifest == was.releaseManifest
                           && c.artifactFingerprint == was.artifactFingerprint
                           && c.candidatePoints == was.candidatePoints))
  {
    var plan := PlanFinalize(s, retired, confirmed);
    if plan.Ok? { ShortPlanSurvives(s, plan.value, writes); }
  }

  /** Recovery fails exactly if the alias is at neither end of the open switch. A completed one commits exactly
      if it is at the candidate, publishing what the transaction says, and otherwise aborts and publishes nothing. */
  lemma RecoverGoesAheadExactly(s: Store, writes: nat)
    ensures var plan := PlanRecover(s);
            && (Settled(s) ==> plan == Ok([]))
            && (!Settled(s) ==>
                  var t := s.transaction.value;
                  && (plan.Ok? <==> s.alias == None || s.alias == Some(t.candidate) || s.alias == Some(t.previous))
                  && (plan.Ok? && writes >= 2 ==>
                        var end := Survive(s, plan.value, writes);
                        && Settled(end) && end.alias == s.alias && end.staged == s.staged && end.transaction.Some?
                        && end.transaction.value == t.(phase := end.transaction.value.phase)
                        && (end.transaction.value.phase == Committed <==> s.alias == Some(t.candidate))
                        && (s.alias != Some(t.candidate) ==> end.current == s.current)
                        && (s.alias == Some(t.candidate) ==>
                              end.current.Some?
                              && var c := end.current.value;
                                 && c.active == t.candidate && c.previous == Some(t.previous)
                                 && c.ragDataDir == t.candidateRagDataDir
                                 && c.previousRagDataDir == t.previousRagDataDir
                                 && c.releaseManifest == t.candidateReleaseManifest
                                 && c.artifactFingerprint == t.candidateArtifactFingerprint
                                 && c.previousReleaseManifest == None && c.previousArtifactFingerprint == None
                                 && c.candidatePoints == t.candidatePoints)))
  {
    var plan := PlanRecover(s);
    if plan.Ok? { ShortPlanSurvives(s, plan.value, writes); }
  }

  /** An operation that ran to its end reports the record it published. */
  predicate Reports<T(==)>(r: Result<T, Error>, published: Option<T>, interrupted: bool) {
    if interrupted then r == Err(Interrupted) else published.Some? && r == Ok(published.value)
  }

  /** The collection name queries are sent to. */
  function QueryCollection(s: Store, fallback: Collection): Collection {
    if s.current.None? then fallback else STABLE_ALIAS
  }

  /** The local artifact root paired with the active alias. */
  function ActiveDataDir(s: Store, fallback: string): string {
    if s.current.Some? && s.current.value.ragDataDir.Some? then s.current.value.ragDataDir.value else fallback
  }

  /** The promotion manager. The argument `writes` of an operation is the number of durable writes after
      which its process dies; an operation that runs to its end is given enough of them. */
  class CollectionPromotionManager {
    var alias: Option<Collection>
    var staged: Option<Staged>
    var current: Option<Current>
    var transaction: Option<Transaction>

    constructor ()
      ensures State() == Store(None, None, None, None)
    {
      alias, staged, current, transaction := None, None, None, None;
    }

    function State(): Store
      reads this
    {
      Store(alias, staged, current, transaction)
    }

    method Stage(candidate: Collection, release: Release, collections: Collections, writes: nat)
      returns (r: Result<Staged, Error>)
      modifies this
      ensures var plan := PlanStage(old(State()), candidate, release, collections);
              match plan
              case Err(e) => r == Err(e) && State() == old(State())
              case Ok(ws) => State() == Survive(old(State()), ws, writes)
                             && Reports(r, State().staged, writes < |ws|)
      ensures r.Ok? ==> staged == Some(r.value) && writes >= 1
    {
      if Pending(State()) { return Err(PendingTransaction); }
      if candidate == STABLE_ALIAS { return Err(NotPhysical); }
      if candidate !in collections { return Err(MissingCollection); }
      var points := collections[candidate];
      if points <= 0 { return Err(EmptyCandidate); }
      if !release.validated { return Err(NotValidated); }
      if !release.promotionEligible { return Err(NotEligible); }
      if release.collection != candidate { return Err(WrongCollection); }
      if !release.validationPassed { return Err(ValidationFailed); }
      if !release.qdrantGreen { return Err(NotGreen); }
      if release.validatedPoints != points { return Err(PointCountChanged); }
      if writes < 1 { return Err(Interrupted); }
      staged := Some(Staged(candidate, points, Some(release.manifestPath),
                            release.artifactFingerprint, release.ragDataDir));
      return Ok(staged.value);
    }

    method Promote(fallback: Collection, confirmed: bool, collections: Collections, writes: nat)
      returns (r: Result<Current, Error>)
      modifies this
      ensures match PlanPromote(old(State()), fallback, confirmed, collections)
              case Err(e) => r == Err(e) && State() == old(State())
              case Ok(ws) => State() == Survive(old(State()), ws, writes)
                             && Reports(r, State().current, writes < |ws|)
      ensures r.Ok? <==>
                && confirmed && Settled(old(State())) && old(staged).Some? && writes >= 5
                && old(staged).value.candidate in collections && collections[old(staged).value.candidate] > 0
      ensures r.Ok? ==> current == Some(r.value) && alias == Some(r.value.active) && r.value.active in collections
      ensures r.Ok? ==> r.value.candidatePoints == collections[r.value.active]
    {
      PromoteGoesAheadExactly(State(), fallback, confirmed, collections);
      if !confirmed { return Err(Unconfirmed); }
      if Pending(State()) { return Err(PendingTransaction); }
      if staged.None? { return Err(NoStagedCandidate); }
      var candidate := staged.value.candidate;
      if candidate !in collections { return Err(MissingCollection); }
      var points := collections[candidate];
      if points <= 0 { return Err(EmptyCandidate); }
      var previous := if alias.Some? then alias.value
                      else if current.Some? then current.value.active else fallback;
      var dir := if current.Some? then current.value.ragDataDir else None;
      var t := Transaction(Prepared, previous, candidate, points, dir, staged.value.ragDataDir,
                           staged.value.releaseManifest, staged.value.artifactFingerprint);
      SwitchSurvives(State(), t, PromotedRecord(State(), staged.value, points, previous), writes);
      if writes < 1 { return Err(Interrupted); }
      transaction := Some(t);
      if writes < 2 { return Err(Interrupted); }
      alias := Some(candidate);
      if writes < 3 { return Err(Interrupted); }
      transaction := Some(t.(phase := AliasSwitched));
      if writes < 4 { return Err(Interrupted); }
      current := Some(Current(candidate, Some(previous), staged.value.ragDataDir, dir,
                              staged.value.releaseManifest,
                              if current.Some? then current.value.releaseManifest else None,
                              staged.value.artifactFingerprint,
                              if current.Some? then current.value.artifactFingerprint else None,
                              points));
      if writes < 5 { return Err(Interrupted); }
      transaction := Some(t.(phase := Committed));
      return Ok(current.value);
    }

    method Rollback(confirmed: bool, collections: Collections, writes: nat)
      returns (r: Result<Current, Error>)
      modifies this
      ensures match PlanRollback(old(State()), confirmed, collections)
              case Err(e) => r == Err(e) && State() == old(State())
              case Ok(ws) => State() == Survive(old(State()), ws, writes)
                             && Reports(r, State().current, writes < |ws|)
      ensures r.Ok? <==>
                && confirmed && Settled(old(State())) && old(current).Some? && writes >= 5
                && old(current).value.previous.Some? && old(current).value.previous.value in collections
      ensures r.Ok? ==> current == Some(r.value) && alias == Some(r.value.active)
    {
      RollbackGoesAheadExactly(State(), confirmed, collections, writes);
      if !confirmed { return Err(Unconfirmed); }
      if Pending(State()) { return Err(PendingTransaction); }
      if current.None? || current.value.previous.None? { return Err(NoPrevious); }
      var was := current.value;
      var previous := was.previous.value;
      if previous !in collections { return Err(MissingCollection); }
      var t := Transaction(Prepared, was.active, previous, collections[previous],
                           was.ragDataDir, was.previousRagDataDir,
                           was.previousReleaseManifest, was.previousArtifactFingerprint);
      SwitchSurvives(State(), t, SwappedRecord(was), writes);
      if writes < 1 { return Err(Interrupted); }
      transaction := Some(t);
      if writes < 2 { return Err(Interrupted); }
      alias := Some(previous);
      if writes < 3 { return Err(Interrupted); }
      transaction := Some(t.(phase := AliasSwitched));
      if writes < 4 { return Err(Interrupted); }
      current := Some(was.(active := previous, previous := Some(was.active),
                           ragDataDir := was.previousRagDataDir, previousRagDataDir := was.ragDataDir,
                           releaseManifest := was.previousReleaseManifest,
                           artifactFingerprint := was.previousArtifactFingerprint,
                           previousReleaseManifest := was.releaseManifest,
                           previousArtifactFingerprint := was.artifactFingerprint));
      if writes < 5 { return Err(Interrupted); }
      transaction := Some(t.(phase := Committed));
      return Ok(current.value);
    }

    method FinalizeRetiredPrevious(retired: Collection, confirmed: bool, writes: nat)
      returns (r: Result<Current, Error>)
      modifies this
      ensures match PlanFinalize(old(State()), retired, confirmed)
              case Err(e) => r == Err(e) && State() == old(State())
              case Ok(ws) => State() == Survive(old(State()), ws, writes)
                             && Reports(r, State().current, writes < |ws|)
      ensures r.Ok? ==> current == Some(r.value)
    {
      if !confirmed { return Err(Unconfirmed); }
      if Pending(State()) { return Err(PendingTransaction); }
      if current.None? { return Err(NoActiveState); }
      if alias != Some(current.value.active) { return Err(AliasDiffers); }
      var unlinks := staged.Some? && staged.value.candidate == retired;
      if current.value.previous.None? {
        if unlinks {
          if writes < 1 { return Err(Interrupted); }
          staged := None;
        }
        return Ok(current.value);
      }
      if current.value.previous.value != retired || current.value.active == retired {
        return Err(NotRollbackTarget);
      }
      if staged.Some? && staged.value.candidate !in {retired, current.value.active} {
        return Err(UnrelatedStaged);
      }
      ShortPlanSurvives(State(), PlanFinalize(State(), retired, confirmed).value, writes);
      var left := writes;
      if unlinks {
        if left < 1 { return Err(Interrupted); }
        staged, left := None, left - 1;
      }
      if left < 1 { return Err(Interrupted); }
      current := Some(current.value.(previous := None, previousRagDataDir := None,
                                     previousReleaseManifest := None, previousArtifactFingerprint := None));
      return Ok(current.value);
    }

    method RecoverPending(writes: nat) returns (r: Result<Phase, Error>)
      modifies this
      ensures match PlanRecover(old(State()))
              case Err(e) => r == Err(e) && State() == old(State())
              case Ok(ws) => State() == Survive(old(State()), ws, writes)
                             && (writes < |ws| ==> r == Err(Interrupted))
                             && (writes >= |ws| && ws != [] ==>
                                   State().transaction.Some? && r == Ok(State().transaction.value.phase))
    {
      if !Pending(State()) { return Ok(Committed); }
      var t := transaction.value;
      var outcome;
      var left := writes;
      if PlanRecover(State()).Ok? { ShortPlanSurvives(State(), PlanRecover(State()).value, writes); }
      if alias == Some(t.candidate) {
        if left < 1 { return Err(Interrupted); }
        current, left := Some(Current(t.candidate, Some(t.previous), t.candidateRagDataDir,
                                      t.previousRagDataDir, t.candidateReleaseManifest, None,
                                      t.candidateArtifactFingerprint, None, t.candidatePoints)), left - 1;
        outcome := Committed;
      } else if alias in {Some(t.previous), None} {
        outcome := Aborted;
      } else {
        return Err(UnexpectedCollection);
      }
      if left < 1 { return Err(Interrupted); }
      transaction := Some(t.(phase := outcome));
      return Ok(outcome);
    }
  }
}
