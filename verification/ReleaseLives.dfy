/** The life of a sound release: from its preparation over its build and validation to the stable alias. */
module ReleaseLives {
  import opened Promotion
  import opened ReleaseEffects
  import opened ValidatedService
  import opened Wrappers
  import PR = PromotionRuns
  import R = Releases
  import V = Validation

  /** The release is eligible, at this status, with this scope and these artifacts. */
  ghost predicate At(w: World, c: Collection, status: R.Status, scope: R.Scope, files: seq<R.Checksum>) {
    && c in w.registry.manifests && w.registry.manifests[c].status == status
    && w.registry.manifests[c].scope == scope && w.registry.manifests[c].promotionEligible
    && R.FilesOf(w.registry, c) == files
  }

  /** The documents and the index are sound as they are, and stay so while they are validated. */
  ghost predicate Worthy(reader: R.Reader, scope: R.Scope, files: seq<R.Checksum>, remote: V.Remote) {
    && Sound(reader, scope, files, files, remote) && ListsOnce(reader.artifacts(files).documents)
    && remote.green && remote.exact > 0
  }

  /** What verification hands out of it. */
  function TokenOf(c: Collection, files: seq<R.Checksum>, remote: V.Remote): Release {
    Release(c, true, true, true, true, remote.exact, c + "/release.json", Some(R.Fingerprint(files)), Some(c + "/rag"))
  }

  lemma Builds(reader: R.Reader, fallback: Collection, w: World, c: Collection, scope: R.Scope,
               files: seq<R.Checksum>, results: seq<R.BuildResult>)
    requires c !in w.registry.directories
    requires forall result :: result in results ==> result.success && result.failures == []
    ensures var w' := Run(reader, fallback, w,
                          [Prepare(c, scope, true, 2), TouchArtifacts(c, files), RecordBuild(c, results)]);
            At(w', c, R.Built, scope, files) && w'.store == w.store && w'.tokens == w.tokens
  {
    hide V.Consistent, PR.Exec, PR.Plan;
    PrepareWrites(w.registry, c, scope, true, 2);
    var prepared := Exec(reader, fallback, w, Prepare(c, scope, true, 2));
    var touched := Exec(reader, fallback, prepared, TouchArtifacts(c, files));
    BuildDecides(touched.registry, c, results);
    var built := Exec(reader, fallback, touched, RecordBuild(c, results));
    RunThree(reader, fallback, w, Prepare(c, scope, true, 2), TouchArtifacts(c, files), RecordBuild(c, results));
  }

  lemma RunThree(reader: R.Reader, fallback: Collection, w: World, a: Step, b: Step, c: Step)
    ensures Run(reader, fallback, w, [a, b, c])
            == Exec(reader, fallback, Exec(reader, fallback, Exec(reader, fallback, w, a), b), c)
  {
    hide Exec;
    assert [a, b, c][1..] == [b, c] && [b, c][1..] == [c] && [c][1..] == [];
    var w1 := Exec(reader, fallback, w, a);
    var w2 := Exec(reader, fallback, w1, b);
    assert Run(reader, fallback, w2, [c]) == Run(reader, fallback, Exec(reader, fallback, w2, c), []);
  }

  lemma Validates(reader: R.Reader, fallback: Collection, w: World, c: Collection, scope: R.Scope,
                  files: seq<R.Checksum>, remote: V.Remote)
    requires At(w, c, R.Built, scope, files) && Worthy(reader, scope, files, remote)
    ensures var w' := Exec(reader, fallback, w, Validate(c, remote, None));
            && At(w', c, R.Validated, scope, files) && w'.store == w.store && w'.tokens == w.tokens
            && JudgedSoundly(reader, w.registry.manifests[c], w'.registry.manifests[c], files, files, remote)
  {
    hide V.Consistent, JudgedSoundly, Sound, ListsOnce, R.Checked;
    ValidationDecides(reader, w.registry, c, remote, None);
    JudgedStatus(reader, w.registry.manifests[c], R.Checked(reader, w.registry, c, remote, None).0.manifests[c],
                 files, files, remote);
  }

  lemma JudgedStatus(reader: R.Reader, before: R.Manifest, after: R.Manifest, checked: seq<R.Checksum>,
                     files: seq<R.Checksum>, remote: V.Remote)
    requires JudgedSoundly(reader, before, after, checked, files, remote)
    ensures after.scope == before.scope && after.promotionEligible == before.promotionEligible
    ensures after.status == if Sound(reader, before.scope, checked, files, remote) then R.Validated else R.Invalid
    ensures after.validationPassed == Sound(reader, before.scope, checked, files, remote)
    ensures after.artifactFingerprint == Some(R.Fingerprint(files)) && after.report.Some?
    ensures after.report.value.qdrantGreen == remote.green && after.report.value.points == remote.exact
  {
    hide V.Consistent, R.Fingerprint, Sound;
  }

  lemma Verifies(reader: R.Reader, fallback: Collection, w: World, c: Collection, before: R.Manifest, scope: R.Scope,
                 files: seq<R.Checksum>, remote: V.Remote)
    requires At(w, c, R.Validated, scope, files) && Worthy(reader, scope, files, remote) && before.scope == scope
    requires JudgedSoundly(reader, before, w.registry.manifests[c], files, files, remote)
    ensures var w' := Exec(reader, fallback, w, Verify(c));
            TokenOf(c, files, remote) in w'.tokens && w'.store == w.store
  {
    hide V.Consistent, JudgedSoundly, Sound, ListsOnce, R.Fingerprint;
    JudgedStatus(reader, before, w.registry.manifests[c], files, files, remote);
    VerificationDecides(w.registry, c);
  }

  /** With its token a release is staged and promoted, if nothing is pending and the collection is as it was
      validated: the alias serves it, and what was served before is kept as the previous collection. */
  lemma Promotes(reader: R.Reader, fallback: Collection, w: World, c: Collection, files: seq<R.Checksum>,
                 remote: V.Remote, collections: Collections)
    requires Settled(w.store) && TokenOf(c, files, remote) in w.tokens && c != "knowledgehub_current"
    requires c in collections && collections[c] == remote.exact && remote.exact > 0
    ensures var stage := Promotion(PR.Event(PR.Stage(c, TokenOf(c, files, remote)), collections, 1));
            var promote := Promotion(PR.Event(PR.Promote(true), collections, 5));
            var w' := Exec(reader, fallback, Exec(reader, fallback, w, stage), promote);
            Serves(w'.store, c, files, remote) && w'.store.current.value.previous.Some?
            && WasServed(w.store, fallback, w'.store.current.value.previous.value)
  {
    hide R.Fingerprint, V.Consistent;
    var token := TokenOf(c, files, remote);
    StageGoesAheadExactly(w.store, c, token, collections, 1);
    var stage := PR.Event(PR.Stage(c, token), collections, 1);
    var staged := Exec(reader, fallback, w, Promotion(stage));
    assert staged.store == Survive(w.store, PlanStage(w.store, c, token, collections).value, 1);
    PromoteGoesAheadExactly(staged.store, fallback, true, collections);
    PromotedState(staged.store, fallback, true, collections, 5);
  }

  /** The alias, the record and the artifacts are those of the release. */
  ghost predicate Serves(s: Store, c: Collection, files: seq<R.Checksum>, remote: V.Remote) {
    && Settled(s) && s.alias == Some(c) && s.current.Some?
    && s.current.value.active == c && s.current.value.candidatePoints == remote.exact
    && s.current.value.ragDataDir == Some(c + "/rag")
    && s.current.value.releaseManifest == Some(c + "/release.json")
    && s.current.value.artifactFingerprint == Some(R.Fingerprint(files))
  }

  /** From any state in which nothing is pending: a release under a new name that is eligible, built without failures
      and sound gets to the alias, with the artifacts and the points it was validated with. */
  lemma ReachesTheAlias(reader: R.Reader, fallback: Collection, w: World, c: Collection, scope: R.Scope,
                        files: seq<R.Checksum>, results: seq<R.BuildResult>, remote: V.Remote,
                        collections: Collections)
    requires c !in w.registry.directories && c != "knowledgehub_current" && Settled(w.store)
    requires forall result :: result in results ==> result.success && result.failures == []
    requires Worthy(reader, scope, files, remote) && c in collections && collections[c] == remote.exact
    ensures var build := [Prepare(c, scope, true, 2), TouchArtifacts(c, files), RecordBuild(c, results)];
            var publish := [Validate(c, remote, None), Verify(c),
                            Promotion(PR.Event(PR.Stage(c, TokenOf(c, files, remote)), collections, 1)),
                            Promotion(PR.Event(PR.Promote(true), collections, 5))];
            var w' := Run(reader, fallback, Run(reader, fallback, w, build), publish);
            Serves(w'.store, c, files, remote) && w'.store.current.value.previous.Some?
            && WasServed(w.store, fallback, w'.store.current.value.previous.value)
  {
    hide Exec, At, Serves, JudgedSoundly, Sound, ListsOnce, R.Fingerprint, V.Consistent, WasServed;
    Builds(reader, fallback, w, c, scope, files, results);
    var build := [Prepare(c, scope, true, 2), TouchArtifacts(c, files), RecordBuild(c, results)];
    var built := Run(reader, fallback, w, build);
    Validates(reader, fallback, built, c, scope, files, remote);
    var validated := Exec(reader, fallback, built, Validate(c, remote, None));
    KeepsScope(built, c, scope, files);
    Verifies(reader, fallback, validated, c, built.registry.manifests[c], scope, files, remote);
    var verified := Exec(reader, fallback, validated, Verify(c));
    Promotes(reader, fallback, verified, c, files, remote, collections);
    var stage := Promotion(PR.Event(PR.Stage(c, TokenOf(c, files, remote)), collections, 1));
    var promote := Promotion(PR.Event(PR.Promote(true), collections, 5));
    var publish := [Validate(c, remote, None), Verify(c), stage, promote];
    assert publish[1..] == [Verify(c), stage, promote];
    RunThree(reader, fallback, validated, Verify(c), stage, promote);
  }

  lemma KeepsScope(w: World, c: Collection, scope: R.Scope, files: seq<R.Checksum>)
    requires At(w, c, R.Built, scope, files)
    ensures c in w.registry.manifests && w.registry.manifests[c].scope == scope
  {
  }
}
