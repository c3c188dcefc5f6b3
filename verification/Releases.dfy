/** Candidate releases: the status machine that a build passes through before it may be staged. */
module Releases {
  import opened Hashing
  import opened Wrappers
  import Promotion
  import V = Validation

  type Collection = Promotion.Collection

  datatype Status = Building | Built | Failed | Validated | Invalid

  datatype Checksum = Checksum(path: string, sha256: Digest, size: nat)

  /** What the build scope demands of the normalized documents, where it demands anything. */
  datatype Scope = Scope(expectedDocuments: Option<nat>, documentFingerprint: Option<Digest>)

  /** The outcome of the cross-store checks that validation runs. */
  datatype Report = Report(
    normalizedValid: bool,
    indexValid: bool,
    qdrantGreen: bool,
    points: nat,
    documents: nat,
    documentFingerprint: Digest)

  datatype Manifest = Manifest(
    status: Status,
    promotionEligible: bool,
    scope: Scope,
    report: Option<Report>,
    validationPassed: bool,
    artifactFingerprint: Option<Digest>)

  datatype BuildResult = BuildResult(success: bool, failures: seq<string>)

  datatype Error = AlreadyExists | MissingManifest | WrongStatus | NotEligible | ArtifactsChanged | DuplicateDocuments

  /** The release directories, each with a manifest once preparation has got that far, and an artifact tree. */
  datatype Registry = Registry(
    directories: set<Collection>, manifests: map<Collection, Manifest>, files: map<Collection, seq<Checksum>>)

  datatype DocumentId = DocumentId(name: string)

  /** What an artifact tree holds: the documents of its normalized manifests and the index's local state. */
  datatype Artifacts = Artifacts(normalizedValid: bool, documents: seq<DocumentId>, local: V.Local)

  /** Files with equal checksums hold equal artifacts; a set of documents has a fingerprint. */
  datatype Reader = Reader(artifacts: seq<Checksum> -> Artifacts, fingerprint: set<DocumentId> -> Digest)

  function FilesOf(r: Registry, c: Collection): seq<Checksum> {
    if c in r.files then r.files[c] else []
  }

  function ChecksumDigest(value: Checksum): Digest {
    Record([Text(value.path), value.sha256, Number(value.size)])
  }

  function Fingerprint(files: seq<Checksum>): Digest {
    Record(seq(|files|, i requires 0 <= i < |files| => ChecksumDigest(files[i])))
  }

  /** Equal fingerprints mean equal artifact lists. */
  lemma FingerprintInjective(a: seq<Checksum>, b: seq<Checksum>)
    requires Fingerprint(a) == Fingerprint(b)
    ensures a == b
  {
    forall i | 0 <= i < |a| ensures a[i] == b[i] {
      assert Fingerprint(a).fields[i] == Fingerprint(b).fields[i];
      assert ChecksumDigest(a[i]).fields[0] == ChecksumDigest(b[i]).fields[0];
      assert ChecksumDigest(a[i]).fields[1] == ChecksumDigest(b[i]).fields[1];
      assert ChecksumDigest(a[i]).fields[2] == ChecksumDigest(b[i]).fields[2];
    }
  }

  function Known(ids: seq<DocumentId>): set<DocumentId>
    decreases |ids|
  {
    if ids == [] then {} else Known(ids[..|ids| - 1]) + {ids[|ids| - 1]}
  }

  /** No identity comes twice. */
  predicate Distinct(ids: seq<DocumentId>)
    decreases |ids|
  {
    ids == [] || (ids[|ids| - 1] !in Known(ids[..|ids| - 1]) && Distinct(ids[..|ids| - 1]))
  }

  lemma {:induction false} KnownAt(ids: seq<DocumentId>, i: nat)
    requires i < |ids|
    ensures ids[i] in Known(ids)
    decreases |ids|
  {
    if i < |ids| - 1 { KnownAt(ids[..|ids| - 1], i); }
  }

  lemma {:induction false} KnownFrom(ids: seq<DocumentId>, x: DocumentId) returns (i: nat)
    requires x in Known(ids)
    ensures i < |ids| && ids[i] == x
    decreases |ids|
  {
    i := |ids| - 1;
    if ids[i] != x { i := KnownFrom(ids[..i], x); }
  }

  /** Any two places hold different identities. */
  lemma {:induction false} DistinctPairwise(ids: seq<DocumentId>, i: nat, j: nat)
    requires Distinct(ids) && i < j < |ids|
    ensures ids[i] != ids[j]
    decreases |ids|
  {
    var n := |ids| - 1;
    if j < n { DistinctPairwise(ids[..n], i, j); } else { KnownAt(ids[..n], i); }
  }

  /** And otherwise two places hold the same. */
  lemma {:induction false} RepeatedSomewhere(ids: seq<DocumentId>) returns (i: nat, j: nat)
    requires !Distinct(ids)
    ensures i < j < |ids| && ids[i] == ids[j]
    decreases |ids|
  {
    var n := |ids| - 1;
    if ids[n] in Known(ids[..n]) {
      i := KnownFrom(ids[..n], ids[n]);
      j := n;
    } else {
      i, j := RepeatedSomewhere(ids[..n]);
    }
  }

  /** Counts the documents of the normalized manifests and refuses a repeated identity. */
  method NormalizedIdentity(ids: seq<DocumentId>) returns (r: Result<(nat, set<DocumentId>), Error>)
    ensures r == if Distinct(ids) then Ok((|ids|, Known(ids))) else Err(DuplicateDocuments)
  {
    var seen, duplicates: set<DocumentId> := {}, {};
    for i := 0 to |ids|
      invariant seen == Known(ids[..i])
      invariant duplicates == {} <==> Distinct(ids[..i])
      invariant duplicates == {} ==> |seen| == i
    {
      assert ids[..i + 1][..i] == ids[..i];
      if ids[i] in seen { duplicates := duplicates + {ids[i]}; }
      seen := seen + {ids[i]};
    }
    assert ids[..|ids|] == ids;
    if duplicates != {} {
      return Err(DuplicateDocuments);
    }
    return Ok((|seen|, seen));
  }

  predicate ScopeHolds(scope: Scope, report: Report) {
    && (scope.expectedDocuments.None? || scope.expectedDocuments.value == report.documents)
    && (scope.documentFingerprint.None? || scope.documentFingerprint.value == report.documentFingerprint)
  }

  predicate Passes(scope: Scope, report: Report, files: seq<Checksum>) {
    report.normalizedValid && report.indexValid && files != [] && ScopeHolds(scope, report)
  }

  predicate BuildFailed(results: seq<BuildResult>) {
    exists i :: 0 <= i < |results| && (!results[i].success || results[i].failures != [])
  }

  /** Preparation creates the directory and then writes the manifest; `writes` of these survive. */
  function Prepared(r: Registry, c: Collection, scope: Scope, eligible: bool, writes: nat): Result<Registry, Error> {
    if c in r.directories then Err(AlreadyExists)
    else if writes == 0 then Ok(r)
    else if writes == 1 then Ok(r.(directories := r.directories + {c}))
    else Ok(r.(directories := r.directories + {c},
               manifests := r.manifests[c := Manifest(Building, eligible, scope, None, false, None)]))
  }

  function BuildRecorded(r: Registry, c: Collection, results: seq<BuildResult>): Result<Registry, Error> {
    if c !in r.manifests then Err(MissingManifest)
    else if r.manifests[c].status != Building then Err(WrongStatus)
    else
      var status := if BuildFailed(results) then Failed else Built;
      Ok(r.(manifests := r.manifests[c := r.manifests[c].(status := status)]))
  }

  function MarkedFailed(r: Registry, c: Collection): Result<Registry, Error> {
    if c !in r.manifests then Err(MissingManifest)
    else Ok(r.(manifests := r.manifests[c := r.manifests[c].(status := Failed)]))
  }

  /** What validation reports: the checks read the artifacts before, the document identity after the checksums
      were taken. Repeated documents end it without a report. */
  ghost function ReportOf(reader: Reader, checked: seq<Checksum>, files: seq<Checksum>, remote: V.Remote)
    : Result<Report, Error>
  {
    var before, ids := reader.artifacts(checked), reader.artifacts(files).documents;
    if !Distinct(ids) then Err(DuplicateDocuments)
    else Ok(Report(before.normalizedValid, V.Consistent(before.local, remote), remote.green, remote.exact,
                   |ids|, reader.fingerprint(Known(ids))))
  }

  function Judged(m: Manifest, report: Report, files: seq<Checksum>): Manifest {
    var passed := Passes(m.scope, report, files);
    m.(status := if passed then Validated else Invalid, report := Some(report), validationPassed := passed,
       artifactFingerprint := Some(Fingerprint(files)))
  }

  function Meanwhile(r: Registry, c: Collection, changed: Option<seq<Checksum>>): Registry {
    if changed.Some? then r.(files := r.files[c := changed.value]) else r
  }

  /** Validation of a collection. `changed` is what the artifacts become, if anything, while it runs: between the
      checks and the checksums. */
  ghost function Checked(reader: Reader, r: Registry, c: Collection, remote: V.Remote,
                         changed: Option<seq<Checksum>>): (Registry, Result<Report, Error>)
  {
    if c !in r.manifests then (r, Err(MissingManifest))
    else if r.manifests[c].status !in {Built, Validated} then (r, Err(WrongStatus))
    else
      var r' := Meanwhile(r, c, changed);
      var files := FilesOf(r', c);
      match ReportOf(reader, FilesOf(r, c), files, remote)
      case Err(e) => (r', Err(e))
      case Ok(report) => (r'.(manifests := r.manifests[c := Judged(r.manifests[c], report, files)]), Ok(report))
  }

  /** What verification hands to staging. */
  function ReleaseOf(c: Collection, m: Manifest): Promotion.Release {
    Promotion.Release(c, m.status == Validated, m.promotionEligible, m.validationPassed,
                      m.report.Some? && m.report.value.qdrantGreen,
                      if m.report.Some? then m.report.value.points else 0,
                      c + "/release.json", m.artifactFingerprint, Some(c + "/rag"))
  }

  function Verified(r: Registry, c: Collection): Result<Promotion.Release, Error> {
    if c !in r.manifests then Err(MissingManifest)
    else
      var m := r.manifests[c];
      if m.status != Validated then Err(WrongStatus)
      else if !m.promotionEligible then Err(NotEligible)
      else if m.artifactFingerprint != Some(Fingerprint(FilesOf(r, c))) then Err(ArtifactsChanged)
      else Ok(ReleaseOf(c, m))
  }

  class CandidateReleaseManager {
    const reader: Reader
    var directories: set<Collection>
    var manifests: map<Collection, Manifest>
    var files: map<Collection, seq<Checksum>>

    constructor (reader: Reader)
      ensures State() == Registry({}, map[], map[]) && this.reader == reader
    {
      this.reader := reader;
      directories, manifests, files := {}, map[], map[];
    }

    function State(): Registry
      reads this
    {
      Registry(directories, manifests, files)
    }

    method Prepare(c: Collection, scope: Scope, eligible: bool, writes: nat) returns (r: Result<(), Error>)
      modifies this
      ensures match Prepared(old(State()), c, scope, eligible, writes)
              case Ok(s) => r == Ok(()) && State() == s
              case Err(e) => r == Err(e) && State() == old(State())
    {
      if c in directories { return Err(AlreadyExists); }
      if writes == 0 { return Ok(()); }
      directories := directories + {c};
      if writes == 1 { return Ok(()); }
      manifests := manifests[c := Manifest(Building, eligible, scope, None, false, None)];
      return Ok(());
    }

    /** Collects the failures of every build result and decides the status from them. */
    method RecordBuild(c: Collection, results: seq<BuildResult>) returns (r: Result<seq<string>, Error>)
      modifies this
      ensures match BuildRecorded(old(State()), c, results)
              case Ok(s) => State() == s && r.Ok? && (r.value != [] ==> BuildFailed(results))
              case Err(e) => r == Err(e) && State() == old(State())
    {
      if c !in manifests { return Err(MissingManifest); }
      if manifests[c].status != Building { return Err(WrongStatus); }
      var failures: seq<string> := [];
      var unsuccessful := false;
      for i := 0 to |results|
        invariant failures != [] || unsuccessful <==> BuildFailed(results[..i])
      {
        assert results[..i + 1] == results[..i] + [results[i]];
        assert BuildFailed(results[..i]) ==> BuildFailed(results[..i + 1]) by {
          if BuildFailed(results[..i]) {
            var k :| 0 <= k < i && (!results[..i][k].success || results[..i][k].failures != []);
            assert results[..i + 1][k] == results[k];
          }
        }
        assert (!results[i].success || results[i].failures != []) ==> BuildFailed(results[..i + 1]) by {
          assert results[..i + 1][i] == results[i];
        }
        failures := failures + results[i].failures;
        unsuccessful := unsuccessful || !results[i].success;
      }
      assert results[..|results|] == results;
      manifests := manifests[c := manifests[c].(status := if failures != [] || unsuccessful then Failed else Built)];
      return Ok(failures);
    }

    method RecordFailure(c: Collection) returns (r: Result<(), Error>)
      modifies this
      ensures match MarkedFailed(old(State()), c)
              case Ok(s) => r == Ok(()) && State() == s
              case Err(e) => r == Err(e) && State() == old(State())
    {
      if c !in manifests { return Err(MissingManifest); }
      manifests := manifests[c := manifests[c].(status := Failed)];
      return Ok(());
    }

    /** The checks over the artifacts read first, and the document identity of those found afterwards. */
    method Inspect(checked: seq<Checksum>, files: seq<Checksum>, remote: V.Remote) returns (r: Result<Report, Error>)
      ensures r == ReportOf(reader, checked, files, remote)
    {
      hide Distinct, Known;
      var artifacts := reader.artifacts(checked);
      var indexValid, found := V.Index(artifacts.local, remote);
      var identity := NormalizedIdentity(reader.artifacts(files).documents);
      if identity.Err? { return Err(DuplicateDocuments); }
      return Ok(Report(artifacts.normalizedValid, indexValid, remote.green, remote.exact,
                       identity.value.0, reader.fingerprint(identity.value.1)));
    }

    /** Decides from the report, the demands of the scope and the checksums. */
    method Judge(manifest: Manifest, report: Report, checksums: seq<Checksum>) returns (judged: Manifest)
      ensures judged == Judged(manifest, report, checksums)
    {
      hide Fingerprint;
      var scopeValid := (manifest.scope.expectedDocuments == None
                         || Some(report.documents) == manifest.scope.expectedDocuments)
                        && (manifest.scope.documentFingerprint == None
                            || Some(report.documentFingerprint) == manifest.scope.documentFingerprint);
      var valid := report.normalizedValid && report.indexValid && checksums != [] && scopeValid;
      judged := manifest.(status := if valid then Validated else Invalid, report := Some(report),
                          validationPassed := valid, artifactFingerprint := Some(Fingerprint(checksums)));
    }

    /** Checks the artifacts and the collection, then takes the checksums, and records the outcome. */
    method Validate(c: Collection, remote: V.Remote, changed: Option<seq<Checksum>>) returns (r: Result<bool, Error>)
      modifies this
      ensures var (s, report) := Checked(reader, old(State()), c, remote, changed);
              && State() == s && (report.Err? ==> r == Err(report.error))
              && (report.Ok? ==> r == Ok(s.manifests[c].status == Validated))
    {
      hide ReportOf, Judged;
      if c !in manifests { return Err(MissingManifest); }
      var manifest := manifests[c];
      if manifest.status != Built && manifest.status != Validated { return Err(WrongStatus); }
      var checked := if c in files then files[c] else [];
      if changed.Some? { files := files[c := changed.value]; }
      var checksums := if c in files then files[c] else [];
      var inspected := Inspect(checked, checksums, remote);
      if inspected.Err? { return Err(inspected.error); }
      var judged := Judge(manifest, inspected.value, checksums);
      manifests := manifests[c := judged];
      return Ok(judged.status == Validated);
    }

    method VerifyValidated(c: Collection) returns (r: Result<Promotion.Release, Error>)
      ensures r == Verified(State(), c)
    {
      if c !in manifests { return Err(MissingManifest); }
      var manifest := manifests[c];
      if manifest.status != Validated { return Err(WrongStatus); }
      if !manifest.promotionEligible { return Err(NotEligible); }
      if manifest.artifactFingerprint != Some(Fingerprint(FilesOf(State(), c))) { return Err(ArtifactsChanged); }
      return Ok(ReleaseOf(c, manifest));
    }
  }
}
