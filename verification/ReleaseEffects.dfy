/** What each call of the release manager does to the registry, in terms of the registry before it. */
module ReleaseEffects {
  import opened Hashing
  import opened Releases
  import opened Wrappers
  import Promotion
  import V = Validation

  /** Nothing about any other collection changes. */
  ghost predicate OnlyConcerns(c: Collection, before: Registry, after: Registry) {
    && (forall x :: x != c ==> (x in after.directories <==> x in before.directories))
    && (forall x :: x != c ==> (x in after.manifests <==> x in before.manifests))
    && (forall x :: x != c && x in before.manifests ==> after.manifests[x] == before.manifests[x])
    && (forall x :: x != c ==> FilesOf(after, x) == FilesOf(before, x))
  }

  /** A name is prepared exactly if it has no directory. The directory comes first, and the manifest of a release
      under construction, with the scope and eligibility asked for, only after it. */
  lemma PrepareWrites(r: Registry, c: Collection, scope: Scope, eligible: bool, writes: nat)
    ensures var p := Prepared(r, c, scope, eligible, writes);
            && (p.Ok? <==> c !in r.directories)
            && (p.Err? ==> p == Err(AlreadyExists))
            && (p.Ok? ==>
                  && OnlyConcerns(c, r, p.value) && FilesOf(p.value, c) == FilesOf(r, c)
                  && (c in p.value.directories <==> writes >= 1)
                  && (writes < 2 ==> p.value.manifests == r.manifests)
                  && (writes >= 2 ==>
                        c in p.value.manifests
                        && var m := p.value.manifests[c];
                           && m.status == Building && m.scope == scope && m.promotionEligible == eligible
                           && m.report == None && !m.validationPassed && m.artifactFingerprint == None))
  {
  }

  /** The manifests agree in everything but the status. */
  predicate SameButStatus(a: Manifest, b: Manifest) {
    && a.promotionEligible == b.promotionEligible && a.scope == b.scope && a.report == b.report
    && a.validationPassed == b.validationPassed && a.artifactFingerprint == b.artifactFingerprint
  }

  /** A build is recorded exactly for a release under construction. The release is built if every result is a success
      without failures, and otherwise failed. */
  lemma BuildDecides(r: Registry, c: Collection, results: seq<BuildResult>)
    ensures var b := BuildRecorded(r, c, results);
            && (b.Ok? <==> c in r.manifests && r.manifests[c].status == Building)
            && (b == Err(MissingManifest) <==> c !in r.manifests)
            && (b.Ok? ==>
                  && OnlyConcerns(c, r, b.value) && b.value.directories == r.directories && b.value.files == r.files
                  && c in b.value.manifests && SameButStatus(b.value.manifests[c], r.manifests[c])
                  && b.value.manifests[c].status
                     == if forall result :: result in results ==> result.success && result.failures == [] then Built
                        else Failed)
  {
    if result :| result in results && !(result.success && result.failures == []) {
      var i :| 0 <= i < |results| && results[i] == result;
      assert !results[i].success || results[i].failures != [];
    }
  }

  /** Any release with a manifest can be marked as failed; nothing else about it changes. */
  lemma FailureWrites(r: Registry, c: Collection)
    ensures var f := MarkedFailed(r, c);
            && (f.Ok? <==> c in r.manifests) && (f.Err? ==> f == Err(MissingManifest))
            && (f.Ok? ==>
                  && OnlyConcerns(c, r, f.value) && f.value.directories == r.directories && f.value.files == r.files
                  && c in f.value.manifests && SameButStatus(f.value.manifests[c], r.manifests[c])
                  && f.value.manifests[c].status == Failed)
  {
  }

  /** What the demands of a scope amount to for these documents. */
  ghost predicate Meets(scope: Scope, reader: Reader, ids: seq<DocumentId>) {
    && (scope.expectedDocuments.Some? ==> scope.expectedDocuments.value == |ids|)
    && (scope.documentFingerprint.Some? ==>
          scope.documentFingerprint.value == reader.fingerprint(set id | id in ids))
  }

  /** No document is listed twice. */
  ghost predicate ListsOnce(ids: seq<DocumentId>) {
    forall i, j :: 0 <= i < j < |ids| ==> ids[i] != ids[j]
  }

  lemma ListsOnceExactly(ids: seq<DocumentId>)
    ensures Distinct(ids) <==> ListsOnce(ids)
    ensures Known(ids) == set id | id in ids
  {
    if Distinct(ids) {
      forall i, j | 0 <= i < j < |ids| ensures ids[i] != ids[j] { DistinctPairwise(ids, i, j); }
    } else {
      var i, j := RepeatedSomewhere(ids);
    }
    forall id | id in ids ensures id in Known(ids) {
      var i :| 0 <= i < |ids| && ids[i] == id;
      KnownAt(ids, i);
    }
    forall id | id in Known(ids) ensures id in ids { var i := KnownFrom(ids, id); }
  }

  /** The release passes: the documents and the index were valid when they were read, and the artifacts the
      checksums are taken of are some, and meet the scope. */
  ghost predicate Sound(reader: Reader, scope: Scope, checked: seq<Checksum>, files: seq<Checksum>, remote: V.Remote) {
    && reader.artifacts(checked).normalizedValid && V.Consistent(reader.artifacts(checked).local, remote)
    && files != [] && Meets(scope, reader, reader.artifacts(files).documents)
  }

  /** The verdict of a validation and the evidence for it. */
  ghost predicate JudgedSoundly(reader: Reader, before: Manifest, after: Manifest, checked: seq<Checksum>,
                                files: seq<Checksum>, remote: V.Remote)
  {
    && after.scope == before.scope && after.promotionEligible == before.promotionEligible
    && after.status == (if Sound(reader, before.scope, checked, files, remote) then Validated else Invalid)
    && after.validationPassed == Sound(reader, before.scope, checked, files, remote)
    && after.artifactFingerprint == Some(Fingerprint(files))
    && after.report.Some?
    && after.report.value.normalizedValid == reader.artifacts(checked).normalizedValid
    && after.report.value.indexValid == V.Consistent(reader.artifacts(checked).local, remote)
    && after.report.value.qdrantGreen == remote.green && after.report.value.points == remote.exact
    && after.report.value.documents == |reader.artifacts(files).documents|
  }

  lemma JudgesSoundly(reader: Reader, m: Manifest, checked: seq<Checksum>, files: seq<Checksum>, remote: V.Remote)
    ensures ReportOf(reader, checked, files, remote).Ok? <==> ListsOnce(reader.artifacts(files).documents)
    ensures ReportOf(reader, checked, files, remote).Err? ==>
              ReportOf(reader, checked, files, remote) == Err(DuplicateDocuments)
    ensures ReportOf(reader, checked, files, remote).Ok? ==>
              JudgedSoundly(reader, m, Judged(m, ReportOf(reader, checked, files, remote).value, files), checked, files,
                            remote)
  {
    hide V.Consistent, Fingerprint, Distinct, Known;
    ListsOnceExactly(reader.artifacts(files).documents);
  }

  /** A validation runs exactly for a built or validated release. It gives its verdict exactly if the artifacts found
      at its end list no document twice, and changes nothing but the manifest; otherwise it leaves the manifest. */
  lemma ValidationDecides(reader: Reader, r: Registry, c: Collection, remote: V.Remote, changed: Option<seq<Checksum>>)
    ensures var (after, report) := Checked(reader, r, c, remote, changed);
            var files := if changed.Some? then changed.value else FilesOf(r, c);
            && OnlyConcerns(c, r, after) && after.directories == r.directories
            && (report.Ok? <==>
                  && c in r.manifests && r.manifests[c].status in {Built, Validated}
                  && ListsOnce(reader.artifacts(files).documents))
            && (report.Err? ==> after.manifests == r.manifests)
            && (report == Err(MissingManifest) || report == Err(WrongStatus) ==> after == r)
            && (report.Ok? ==>
                  && c in after.manifests && FilesOf(after, c) == files
                  && JudgedSoundly(reader, r.manifests[c], after.manifests[c], FilesOf(r, c), files, remote))
  {
    var files := if changed.Some? then changed.value else FilesOf(r, c);
    hide JudgedSoundly, ReportOf, Judged, ListsOnce;
    if c in r.manifests { JudgesSoundly(reader, r.manifests[c], FilesOf(r, c), files, remote); }
  }

  /** A release is handed out exactly if it is validated, eligible, and on disk as it was when the checksums were
      taken; what is handed out is what its manifest says. */
  lemma VerificationDecides(r: Registry, c: Collection)
    ensures var v := Verified(r, c);
            && (v.Ok? <==>
                  && c in r.manifests && r.manifests[c].status == Validated && r.manifests[c].promotionEligible
                  && r.manifests[c].artifactFingerprint == Some(Fingerprint(FilesOf(r, c))))
            && (v == Err(MissingManifest) <==> c !in r.manifests)
            && (v.Ok? ==>
                  var m := r.manifests[c];
                  && v.value.collection == c && v.value.validated && v.value.promotionEligible
                  && v.value.validationPassed == m.validationPassed
                  && v.value.artifactFingerprint == m.artifactFingerprint
                  && (v.value.qdrantGreen <==> m.report.Some? && m.report.value.qdrantGreen)
                  && (m.report.Some? ==> v.value.validatedPoints == m.report.value.points))
  {
    hide Fingerprint;
  }
}
