/** Releases and promotion together: what the stable alias can ever serve. */
module ValidatedService {
  import opened Hashing
  import opened Wrappers
  import opened Promotion
  import PR = PromotionRuns
  import R = Releases
  import V = Validation

  /** One run of the validator: the artifacts its checks read, the collection it scrolled, the artifacts it then
      took the checksums of, and what it reported. */
  datatype Validation = Validation(
    collection: Collection, scope: R.Scope, checked: seq<R.Checksum>, remote: V.Remote, files: seq<R.Checksum>,
    report: R.Report)

  /** One accepted staging: the release handed in and the live point count. */
  datatype Staging = Staging(release: Release, points: nat)

  datatype World = World(
    registry: R.Registry,
    tokens: set<Release>,         // everything verification ever handed out, however stale by now
    store: Store,
    validations: set<Validation>, // log of validator runs
    stagings: set<Staging>)       // log of accepted stagings

  datatype Step =
    | Prepare(collection: Collection, scope: R.Scope, eligible: bool, writes: nat)
    | TouchArtifacts(collection: Collection, files: seq<R.Checksum>)
    | RecordBuild(collection: Collection, results: seq<R.BuildResult>)
    | RecordFailure(collection: Collection)
    | Validate(collection: Collection, remote: V.Remote, changed: Option<seq<R.Checksum>>)
    | Verify(collection: Collection)
    | Promotion(event: PR.Event)

  const START := World(R.Registry({}, map[], map[]), {}, PR.EMPTY, {}, {})

  function Updated(w: World, r: Result<R.Registry, R.Error>): World {
    if r.Ok? then w.(registry := r.value) else w
  }

  /** Staging takes only releases that verification returned at some time; every other call is free. */
  ghost function Exec(reader: R.Reader, fallback: Collection, w: World, step: Step): World {
    match step
    case Prepare(c, scope, eligible, writes) => Updated(w, R.Prepared(w.registry, c, scope, eligible, writes))
    case TouchArtifacts(c, files) => w.(registry := w.registry.(files := w.registry.files[c := files]))
    case RecordBuild(c, results) => Updated(w, R.BuildRecorded(w.registry, c, results))
    case RecordFailure(c) => Updated(w, R.MarkedFailed(w.registry, c))
    case Validate(c, remote, changed) => Validated(reader, w, c, remote, changed)
    case Verify(c) =>
      var r := R.Verified(w.registry, c);
      if r.Ok? then w.(tokens := w.tokens + {r.value}) else w
    case Promotion(e) =>
      if e.call.Stage? && e.call.release !in w.tokens then w
      else
        var store := PR.Exec(fallback, w.store, e);
        if e.call.Stage? && PR.Plan(fallback, w.store, e).Ok? then
          w.(store := store,
             stagings := w.stagings + {Staging(e.call.release, e.collections[e.call.candidate])})
        else w.(store := store)
  }

  ghost function Validated(reader: R.Reader, w: World, c: Collection, remote: V.Remote,
                           changed: Option<seq<R.Checksum>>): World
  {
    var (registry, report) := R.Checked(reader, w.registry, c, remote, changed);
    if report.Err? then w.(registry := registry)
    else w.(registry := registry,
            validations := w.validations
              + {Validation(c, w.registry.manifests[c].scope, R.FilesOf(w.registry, c), remote,
                            R.FilesOf(registry, c), report.value)})
  }

  ghost function Run(reader: R.Reader, fallback: Collection, w: World, steps: seq<Step>): World
    decreases |steps|
  {
    if steps == [] then w else Run(reader, fallback, Exec(reader, fallback, w, steps[0]), steps[1..])
  }

  ghost predicate Vouches(v: Validation, release: Release) {
    && v.collection == release.collection
    && R.Passes(v.scope, v.report, v.files)
    && release.qdrantGreen == v.report.qdrantGreen
    && release.validatedPoints == v.report.points
    && release.artifactFingerprint == Some(R.Fingerprint(v.files))
  }

  /** The report is what the checks found in the artifacts they read and the collection they scrolled. */
  ghost predicate Honest(reader: R.Reader, v: Validation) {
    R.ReportOf(reader, v.checked, v.files, v.remote) == Ok(v.report)
  }

  /** The index was consistent when it was validated: state, artifacts, sources and collection agreed. */
  ghost predicate WasConsistent(reader: R.Reader, v: Validation) {
    && reader.artifacts(v.checked).normalizedValid
    && V.Consistent(reader.artifacts(v.checked).local, v.remote)
  }

  /** A collection that was staged with a validated, eligible, green release of a nonempty collection whose
      live point count was the validated one, and whose index was consistent when validated. */
  ghost predicate Certified(reader: R.Reader, w: World, c: Collection) {
    exists staging, v ::
      && staging in w.stagings && v in w.validations
      && staging.release.collection == c && Vouches(v, staging.release)
      && staging.release.promotionEligible && v.remote.green
      && staging.points == v.remote.exact && staging.points > 0
      && WasConsistent(reader, v)
  }

  ghost predicate ManifestVouched(w: World, c: Collection) {
    c in w.registry.manifests && w.registry.manifests[c].status == R.Validated ==>
      && w.registry.manifests[c].validationPassed
      && exists v :: v in w.validations && Vouches(v, R.ReleaseOf(c, w.registry.manifests[c]))
  }

  ghost predicate TokenVouched(w: World, release: Release) {
    && release.ragDataDir == Some(PR.RagDataDir(release.collection))
    && exists v :: v in w.validations && Vouches(v, release)
  }

  ghost predicate Inv(reader: R.Reader, fallback: Collection, w: World) {
    && (forall v :: v in w.validations ==> Honest(reader, v))
    && (forall c :: ManifestVouched(w, c))
    && (forall release :: release in w.tokens ==> TokenVouched(w, release))
    && (forall c :: c in PR.Names(w.store) ==> c == fallback || Certified(reader, w, c))
    && PR.Inv(fallback, w.store)
  }

  /** The logs only grow, so whatever was certified or vouched for stays so. */
  lemma LogsGrow(reader: R.Reader, w: World, w': World)
    requires w.validations <= w'.validations && w.stagings <= w'.stagings
    ensures forall c :: Certified(reader, w, c) ==> Certified(reader, w', c)
    ensures forall release :: TokenVouched(w, release) ==> TokenVouched(w', release)
    ensures forall c | c in w.registry.manifests && c in w'.registry.manifests
                       && w.registry.manifests[c] == w'.registry.manifests[c] && ManifestVouched(w, c)
              :: ManifestVouched(w', c)
  {
    forall c | Certified(reader, w, c) ensures Certified(reader, w', c) {
      var staging, v :|
        && staging in w.stagings && v in w.validations
        && staging.release.collection == c && Vouches(v, staging.release)
        && staging.release.promotionEligible && v.remote.green
        && staging.points == v.remote.exact && staging.points > 0
        && WasConsistent(reader, v);
      assert staging in w'.stagings && v in w'.validations;
    }
  }

  /** A passing, honest report is one of a consistent index. */
  lemma PassingWasConsistent(reader: R.Reader, v: Validation)
    requires Honest(reader, v) && R.Passes(v.scope, v.report, v.files)
    ensures WasConsistent(reader, v) && v.remote.green == v.report.qdrantGreen && v.remote.exact == v.report.points
    ensures R.Distinct(reader.artifacts(v.files).documents)
  {
  }

  lemma ValidateKeepsInv(reader: R.Reader, fallback: Collection, w: World, c: Collection, remote: V.Remote,
                         changed: Option<seq<R.Checksum>>)
    requires Inv(reader, fallback, w)
    ensures Inv(reader, fallback, Validated(reader, w, c, remote, changed))
  {
    var w' := Validated(reader, w, c, remote, changed);
    LogsGrow(reader, w, w');
    var (registry, report) := R.Checked(reader, w.registry, c, remote, changed);
    forall d ensures ManifestVouched(w', d) {
      assert ManifestVouched(w, d);
      if d == c && report.Ok? && registry.manifests[c].status == R.Validated {
        var v := Validation(c, w.registry.manifests[c].scope, R.FilesOf(w.registry, c), remote,
                            R.FilesOf(registry, c), report.value);
        assert v in w'.validations && Vouches(v, R.ReleaseOf(c, w'.registry.manifests[c]));
      }
    }
  }

  lemma VerifyKeepsInv(reader: R.Reader, fallback: Collection, w: World, c: Collection)
    requires Inv(reader, fallback, w)
    ensures Inv(reader, fallback, Exec(reader, fallback, w, Verify(c)))
  {
    hide Certified, Honest, V.Consistent, PR.Inv, PR.Exec;
    var w' := Exec(reader, fallback, w, Verify(c));
    LogsGrow(reader, w, w');
    assert ManifestVouched(w, c);
    forall d ensures ManifestVouched(w', d) { assert ManifestVouched(w, d); }
  }

  lemma StepKeepsInv(reader: R.Reader, fallback: Collection, w: World, step: Step)
    requires Inv(reader, fallback, w)
    ensures Inv(reader, fallback, Exec(reader, fallback, w, step))
  {
    hide Certified, Vouches, Honest, TokenVouched, Validated, V.Consistent, PR.Inv, PR.Exec;
    match step
    case Promotion(e) => PromotionKeepsInv(reader, fallback, w, e);
    case Verify(c) => VerifyKeepsInv(reader, fallback, w, c);
    case Validate(c, remote, changed) => ValidateKeepsInv(reader, fallback, w, c, remote, changed);
    case _ =>
      var w' := Exec(reader, fallback, w, step);
      LogsGrow(reader, w, w');
      forall d ensures ManifestVouched(w', d) { assert ManifestVouched(w, d); }
  }

  lemma StagedIsCertified(reader: R.Reader, fallback: Collection, w: World, e: PR.Event)
    requires Inv(reader, fallback, w) && e.call.Stage? && e.call.release in w.tokens
    requires PR.Plan(fallback, w.store, e).Ok?
    ensures Certified(reader, Exec(reader, fallback, w, Promotion(e)), e.call.candidate)
  {
    hide V.Consistent, R.Distinct, R.Known, R.Passes, PR.Inv, PR.Exec;
    var w' := Exec(reader, fallback, w, Promotion(e));
    var staging := Staging(e.call.release, e.collections[e.call.candidate]);
    assert TokenVouched(w, e.call.release);
    var v :| v in w.validations && Vouches(v, e.call.release);
    PassingWasConsistent(reader, v);
    assert staging in w'.stagings && v in w'.validations;
  }

  lemma PromotionKeepsInv(reader: R.Reader, fallback: Collection, w: World, e: PR.Event)
    requires Inv(reader, fallback, w)
    ensures Inv(reader, fallback, Exec(reader, fallback, w, Promotion(e)))
  {
    hide Certified, Vouches, Honest, V.Consistent;
    var w' := Exec(reader, fallback, w, Promotion(e));
    LogsGrow(reader, w, w');
    forall d ensures ManifestVouched(w', d) { assert ManifestVouched(w, d); }
    if !(e.call.Stage? && e.call.release !in w.tokens) {
      PR.StepKeepsInv(fallback, w.store, e);
      PR.NamesOnlyStaged(fallback, w.store, e);
      if e.call.Stage? && PR.Plan(fallback, w.store, e).Ok? {
        StagedIsCertified(reader, fallback, w, e);
      }
    }
  }

  /** In every reachable state, crashes and rollbacks included, the alias serves the fallback or a certified
      collection, and so does whatever the record could roll back to. */
  lemma {:induction false} ValidatedOnly(reader: R.Reader, fallback: Collection, steps: seq<Step>)
    ensures var w := Run(reader, fallback, START, steps);
            && PR.Inv(fallback, w.store)
            && forall c :: c in PR.Names(w.store) ==> c == fallback || Certified(reader, w, c)
  {
    RunKeepsInv(reader, fallback, START, steps);
  }

  lemma {:induction false} RunKeepsInv(reader: R.Reader, fallback: Collection, w: World, steps: seq<Step>)
    requires Inv(reader, fallback, w)
    ensures Inv(reader, fallback, Run(reader, fallback, w, steps))
    decreases |steps|
  {
    if steps != [] {
      StepKeepsInv(reader, fallback, w, steps[0]);
      RunKeepsInv(reader, fallback, Exec(reader, fallback, w, steps[0]), steps[1..]);
    }
  }

  /** A rejected release stays rejected: its collection name yields no further token in any later run. */
  lemma {:induction false} RejectedForGood(reader: R.Reader, fallback: Collection, w: World, c: Collection,
                                           steps: seq<Step>)
    requires c in w.registry.directories && c in w.registry.manifests
    requires w.registry.manifests[c].status in {R.Failed, R.Invalid}
    ensures var w' := Run(reader, fallback, w, steps);
            && c in w'.registry.manifests && w'.registry.manifests[c].status in {R.Failed, R.Invalid}
            && forall release :: release in w'.tokens && release.collection == c ==> release in w.tokens
    decreases |steps|
  {
    if steps != [] {
      RejectedForGood(reader, fallback, Exec(reader, fallback, w, steps[0]), c, steps[1..]);
    }
  }

  /** What the scope demands of the documents. */
  predicate Meets(scope: R.Scope, report: R.Report) {
    && (scope.expectedDocuments.Some? ==> report.documents == scope.expectedDocuments.value)
    && (scope.documentFingerprint.Some? ==> report.documentFingerprint == scope.documentFingerprint.value)
  }

  /** The manifest carries its scope and eligibility, and a validated one a valid report that meets the scope. */
  ghost predicate Within(m: R.Manifest, scope: R.Scope, eligible: bool) {
    && m.scope == scope && m.promotionEligible == eligible
    && (m.status == R.Validated ==>
          && m.report.Some? && m.report.value.normalizedValid && m.report.value.indexValid
          && Meets(scope, m.report.value))
  }

  /** A release that is validated in some later run meets the scope it was prepared with and is as eligible. */
  lemma {:induction false} ValidatedMeetsScope(reader: R.Reader, fallback: Collection, w: World, c: Collection,
                                               scope: R.Scope, eligible: bool, steps: seq<Step>)
    requires c !in w.registry.directories && c !in w.registry.manifests
    ensures var w' := Run(reader, fallback, Exec(reader, fallback, w, Prepare(c, scope, eligible, 2)), steps);
            c in w'.registry.manifests && Within(w'.registry.manifests[c], scope, eligible)
  {
    StaysWithin(reader, fallback, Exec(reader, fallback, w, Prepare(c, scope, eligible, 2)), c, scope, eligible, steps);
  }

  lemma {:induction false} StaysWithin(reader: R.Reader, fallback: Collection, w: World, c: Collection,
                                       scope: R.Scope, eligible: bool, steps: seq<Step>)
    requires c in w.registry.directories && c in w.registry.manifests
    requires Within(w.registry.manifests[c], scope, eligible)
    ensures var w' := Run(reader, fallback, w, steps);
            c in w'.registry.manifests && Within(w'.registry.manifests[c], scope, eligible)
    decreases |steps|
  {
    if steps != [] {
      StaysWithin(reader, fallback, Exec(reader, fallback, w, steps[0]), c, scope, eligible, steps[1..]);
    }
  }

  /** A preparation that died after creating the directory blocks its collection name for good: it can never be
      prepared, built, failed, validated or verified. */
  lemma {:induction false} OrphanForGood(reader: R.Reader, fallback: Collection, w: World, c: Collection,
                                         steps: seq<Step>)
    requires c in w.registry.directories && c !in w.registry.manifests
    ensures var r := Run(reader, fallback, w, steps).registry;
            && c in r.directories && c !in r.manifests
            && (forall scope, eligible, writes :: R.Prepared(r, c, scope, eligible, writes) == Err(R.AlreadyExists))
            && (forall results :: R.BuildRecorded(r, c, results) == Err(R.MissingManifest))
            && R.MarkedFailed(r, c) == Err(R.MissingManifest) && R.Verified(r, c) == Err(R.MissingManifest)
            && forall remote, changed ::
                 R.Checked(reader, r, c, remote, changed) == (r, Err(R.MissingManifest))
    decreases |steps|
  {
    if steps != [] {
      OrphanForGood(reader, fallback, Exec(reader, fallback, w, steps[0]), c, steps[1..]);
    }
  }

  /** A verified release is bound to its artifacts: the files on disk are the ones a passing validation took the
      checksums of, and those its checks had read unless they were changed while it ran. */
  lemma VerifiedMeansUnchanged(reader: R.Reader, fallback: Collection, w: World, c: Collection)
    requires Inv(reader, fallback, w) && R.Verified(w.registry, c).Ok?
    ensures exists v :: v in w.validations && v.collection == c && v.files == R.FilesOf(w.registry, c)
                        && WasConsistent(reader, v) && R.Passes(v.scope, v.report, v.files)
                        && (v.checked == v.files ==>
                              V.Consistent(reader.artifacts(R.FilesOf(w.registry, c)).local, v.remote))
  {
    assert ManifestVouched(w, c);
    var v :| v in w.validations && Vouches(v, R.ReleaseOf(c, w.registry.manifests[c]));
    R.FingerprintInjective(v.files, R.FilesOf(w.registry, c));
    PassingWasConsistent(reader, v);
  }

  /** The failing run: artifacts that are replaced between the checks and the checksums are verified although the
      checks never read them, and may describe another index than the collection holds. */
  lemma ReplacedWhileValidated(reader: R.Reader, fallback: Collection, c: Collection,
                               a: seq<R.Checksum>, b: seq<R.Checksum>, remote: V.Remote)
    requires a != b && b != [] && R.Distinct(reader.artifacts(b).documents)
    requires reader.artifacts(a).normalizedValid && V.Consistent(reader.artifacts(a).local, remote)
    requires !V.Consistent(reader.artifacts(b).local, remote)
    ensures var free := R.Scope(None, None);
            var steps := [Prepare(c, free, true, 2), TouchArtifacts(c, a), RecordBuild(c, []),
                          Validate(c, remote, Some(b)), Verify(c)];
            var w := Run(reader, fallback, START, steps);
            && R.Verified(w.registry, c).Ok? && R.FilesOf(w.registry, c) == b
            && !V.Consistent(reader.artifacts(R.FilesOf(w.registry, c)).local, remote)
  {
    hide V.Consistent, R.Distinct, R.Fingerprint;
    var free := R.Scope(None, None);
    var w3 := Exec(reader, fallback, Exec(reader, fallback,
                Exec(reader, fallback, START, Prepare(c, free, true, 2)), TouchArtifacts(c, a)), RecordBuild(c, []));
    BuiltWith(reader, fallback, c, a);
    assert R.ReportOf(reader, a, b, remote).Ok?;
    var w4 := Exec(reader, fallback, w3, Validate(c, remote, Some(b)));
    assert R.FilesOf(w4.registry, c) == b && w4.registry.manifests[c].status == R.Validated;
    RunFive(reader, fallback, START, Prepare(c, free, true, 2), TouchArtifacts(c, a), RecordBuild(c, []),
            Validate(c, remote, Some(b)), Verify(c));
  }

  lemma BuiltWith(reader: R.Reader, fallback: Collection, c: Collection, a: seq<R.Checksum>)
    ensures var free := R.Scope(None, None);
            var w := Exec(reader, fallback, Exec(reader, fallback,
                       Exec(reader, fallback, START, Prepare(c, free, true, 2)), TouchArtifacts(c, a)),
                       RecordBuild(c, []));
            && c in w.registry.manifests && R.FilesOf(w.registry, c) == a
            && w.registry.manifests[c] == R.Manifest(R.Built, true, free, None, false, None)
  {
    assert !R.BuildFailed([]);
  }

  lemma RunFive(reader: R.Reader, fallback: Collection, w: World, s1: Step, s2: Step, s3: Step, s4: Step, s5: Step)
    ensures Run(reader, fallback, w, [s1, s2, s3, s4, s5])
            == Exec(reader, fallback, Exec(reader, fallback, Exec(reader, fallback,
                 Exec(reader, fallback, Exec(reader, fallback, w, s1), s2), s3), s4), s5)
  {
    hide Exec;
    var w1 := Exec(reader, fallback, w, s1);
    var w2 := Exec(reader, fallback, w1, s2);
    var w3 := Exec(reader, fallback, w2, s3);
    var w4 := Exec(reader, fallback, w3, s4);
    assert [s1, s2, s3, s4, s5][1..] == [s2, s3, s4, s5] && [s2, s3, s4, s5][1..] == [s3, s4, s5];
    assert [s3, s4, s5][1..] == [s4, s5] && [s4, s5][1..] == [s5] && |[s5][1..]| == 0;
    assert Run(reader, fallback, w, [s1, s2, s3, s4, s5]) == Run(reader, fallback, w1, [s2, s3, s4, s5]);
    assert Run(reader, fallback, w1, [s2, s3, s4, s5]) == Run(reader, fallback, w2, [s3, s4, s5]);
    assert Run(reader, fallback, w2, [s3, s4, s5]) == Run(reader, fallback, w3, [s4, s5]);
    assert Run(reader, fallback, w3, [s4, s5]) == Run(reader, fallback, w4, [s5]);
    assert Run(reader, fallback, w4, [s5]) == Run(reader, fallback, Exec(reader, fallback, w4, s5), [s5][1..]);
  }
}
