/** Whole histories of pipeline runs. Any sequence of full, incremental, resumed, parse-only and embed runs,
    each stopped anywhere, keeps the index agreement; one error-free reconcile of a non-empty snapshot then
    leaves exactly the index a build from nothing leaves, and consuming the published log does the same. */
module PipelineRuns {
  import opened DeltaPublisher
  import opened Hashing
  import opened Orchestrator
  import opened PipelineRows
  import opened PointStore
  import opened Wrappers

  type DeltaLog = seq<seq<Event>>

  datatype Command =
    | Full(documents: Documents, unfiltered: bool, force: bool, prune: bool)
    | Incremental
    | ResumeActive(filter: set<DocId>)
    | Parse(documents: Documents, force: bool)
    | Embed(filter: set<DocId>)
    | LoseFile(id: DocId)

  /** One command, with the log and the chunking configuration it finds, and whether anything may fail. */
  datatype RunSpec = RunSpec(command: Command, parseOnly: bool, log: DeltaLog, chunking: Digest, calm: bool)

  ghost predicate HonestLog(log: DeltaLog) {
    forall events :: events in log ==> HonestEvents(events)
  }

  ghost predicate WellFormed(run: RunSpec) {
    && HonestLog(run.log)
    && match run.command
       case Full(documents, _, _, _) => HonestDocuments(documents)
       case Parse(documents, _) => HonestDocuments(documents)
       case _ => true
  }

  /** Well-formed runs over a log that only grows, up to `last`. */
  ghost predicate AppendOnly(runs: seq<RunSpec>, consumed: nat, last: DeltaLog) {
    && (forall i :: 0 <= i < |runs| ==> WellFormed(runs[i]) && consumed <= |runs[i].log| <= |last|)
    && (forall i, j :: 0 <= i < j < |runs| ==> |runs[i].log| <= |runs[j].log|)
    && consumed <= |last|
  }

  method Execute(o: PipelineOrchestrator, run: RunSpec) returns (alive: bool, failed: set<DocId>)
    requires o.Valid() && WellFormed(run) && o.consumed <= |run.log|
    modifies o, o.index
    ensures o.Valid() && o.consumed <= |run.log| && (run.calm ==> alive)
  {
    o.calm := run.calm;
    match run.command
    case Full(documents, unfiltered, force, prune) =>
      alive, failed := o.IngestFull(documents, unfiltered, run.log, run.chunking, force, prune, run.parseOnly);
    case Incremental =>
      alive, failed := o.IngestIncremental(run.log, run.chunking, run.parseOnly);
    case ResumeActive(filter) =>
      alive, failed := o.Resume(filter, run.chunking, run.parseOnly);
    case Parse(documents, force) =>
      alive, failed := o.ParsePending(documents, run.chunking, force);
    case Embed(filter) =>
      alive, failed := o.EmbedPending(filter, false);
    case LoseFile(id) =>
      o.LoseChunkFile(id);
      return true, {};
  }

  /** Any history keeps the agreement, however its runs end. */
  method History(o: PipelineOrchestrator, runs: seq<RunSpec>, ghost last: DeltaLog)
    requires o.Valid() && AppendOnly(runs, o.consumed, last)
    modifies o, o.index
    ensures o.Valid() && o.consumed <= |last|
  {
    for i := 0 to |runs|
      invariant o.Valid() && o.consumed <= if i < |runs| then |runs[i].log| else |last|
    {
      var alive, failed := Execute(o, runs[i]);
    }
  }

  /** Two states that both reconciled the same snapshot have the same points and the same active rows. */
  lemma ReconciledAlike(cfg: Config, documents: Documents, chunking: Digest, d: DocId, v: View, w: View)
    requires Follows(cfg, chunking, Get(documents, d), v) && Follows(cfg, chunking, Get(documents, d), w)
    ensures Settled(v) == Settled(w)
    ensures Active(v) == Active(w) == (d in documents)
    ensures Active(v) ==> v.row == w.row
  {
  }

  /** Two pipelines of one configuration that reconciled the same snapshot have the same index. */
  lemma ReconciledSameIndex(a: PipelineOrchestrator, b: PipelineOrchestrator, documents: Documents, chunking: Digest)
    requires a.Valid() && b.Valid() && a.cfg == b.cfg
    requires forall d :: a.Reconciled(documents, chunking, d, a.ViewOf(d))
    requires forall d :: b.Reconciled(documents, chunking, d, b.ViewOf(d))
    ensures a.index.points == b.index.points
    ensures forall d ::
              DocPoints(a.index.points, d)
              == if d in documents then ScratchPoints(a.cfg, documents[d], chunking) else map[]
  {
    forall d
      ensures DocPoints(a.index.points, d) == DocPoints(b.index.points, d)
              == if d in documents then ScratchPoints(a.cfg, documents[d], chunking) else map[]
    {
      assert a.Reconciled(documents, chunking, d, a.ViewOf(d)) && b.Reconciled(documents, chunking, d, b.ViewOf(d));
      assert DocOk(a.cfg, d, a.ViewOf(d)) && DocOk(b.cfg, d, b.ViewOf(d));
    }
    SameByDocument(a.index.points, b.index.points);
  }

  /** And the same rows of active documents. */
  lemma ReconciledSameRows(a: PipelineOrchestrator, b: PipelineOrchestrator, documents: Documents, chunking: Digest)
    requires a.cfg == b.cfg
    requires forall d :: a.Reconciled(documents, chunking, d, a.ViewOf(d))
    requires forall d :: b.Reconciled(documents, chunking, d, b.ViewOf(d))
    ensures forall d :: Active(a.ViewOf(d)) == Active(b.ViewOf(d)) == (d in documents)
    ensures forall d :: d in documents ==>
              a.ViewOf(d).row == b.ViewOf(d).row == Some(ReadyRow(a.cfg, documents[d], chunking))
  {
    hide ReadyRow, ScratchPoints;
    forall d
      ensures Active(a.ViewOf(d)) == Active(b.ViewOf(d)) == (d in documents)
      ensures d in documents ==> a.ViewOf(d).row == b.ViewOf(d).row == Some(ReadyRow(a.cfg, documents[d], chunking))
    {
      assert a.Reconciled(documents, chunking, d, a.ViewOf(d)) && b.Reconciled(documents, chunking, d, b.ViewOf(d));
      ReconciledAlike(a.cfg, documents, chunking, d, a.ViewOf(d), b.ViewOf(d));
    }
  }

  /** Reconciled documents are told apart by their contents, and their points are those of their texts. */
  lemma ReconciledFresh(o: PipelineOrchestrator, documents: Documents, chunking: Digest)
    requires o.Valid() && HonestDocuments(documents)
    requires forall d :: o.Reconciled(documents, chunking, d, o.ViewOf(d))
    ensures o.ChunkedApart(documents, {})
    ensures forall d :: d in documents ==> FreshView(o.cfg, d, documents[d], o.ViewOf(d))
  {
    forall d | d in documents
      ensures FreshView(o.cfg, d, documents[d], o.ViewOf(d))
      ensures ParsedView(o.cfg, documents[d], false, chunking, o.ViewOf(d))
    {
      assert o.Reconciled(documents, chunking, d, o.ViewOf(d)) && DocOk(o.cfg, d, o.ViewOf(d));
      ReadyIsFresh(o.cfg, chunking, documents[d], o.ViewOf(d));
    }
    o.ParsedApart(documents, {}, chunking);
  }

  /** The snapshot holds nothing that neither parser reads. */
  ghost predicate Readable(cfg: Config, documents: Documents) {
    forall d :: d in documents ==> !cfg.unreadable(documents[d].content)
  }

  /** From scratch: whatever happened before, an error-free reconcile leaves the index and the active rows of an
      error-free first run of a new pipeline over the same snapshot. Where nothing fails, both are error-free
      exactly if every document can be read. */
  method ReconcileEqualsScratch(o: PipelineOrchestrator, runs: seq<RunSpec>, documents: Documents, log: DeltaLog,
                                chunking: Digest, calm: bool)
    returns (complete: bool, scratch: PipelineOrchestrator)
    requires o.Valid() && AppendOnly(runs, o.consumed, log) && HonestDocuments(documents) && documents != map[]
    modifies o, o.index
    ensures o.Valid()
    ensures calm ==> (complete <==> Readable(o.cfg, documents))
    ensures complete ==> scratch.index.points == o.index.points
    ensures complete ==> forall d :: Active(o.ViewOf(d)) == Active(scratch.ViewOf(d)) == (d in documents)
    ensures complete ==> forall d :: d in documents ==>
              o.ViewOf(d).row == scratch.ViewOf(d).row == Some(ReadyRow(o.cfg, documents[d], chunking))
    ensures complete ==> forall d ::
              DocPoints(o.index.points, d)
              == if d in documents then ScratchPoints(o.cfg, documents[d], chunking) else map[]
    ensures complete ==> o.ChunkedApart(documents, {})
    ensures complete ==> forall d :: d in documents ==> FreshView(o.cfg, d, documents[d], o.ViewOf(d))
  {
    hide DocOk, ReadyRow, ScratchPoints, FreshView;
    History(o, runs, log);
    var index := new QdrantIndex(o.index.upsertBatchSize);
    scratch := new PipelineOrchestrator(o.cfg, index, o.batchSize);
    o.calm, scratch.calm := calm, calm;
    var alive, failed := o.Reconcile(documents, log, chunking, false);
    var scratchAlive, scratchFailed := scratch.Reconcile(documents, [], chunking, false);
    complete := alive && failed == {} && scratchAlive && scratchFailed == {};
    if complete {
      ReconciledSameIndex(o, scratch, documents, chunking);
      ReconciledSameRows(o, scratch, documents, chunking);
      ReconciledFresh(o, documents, chunking);
    }
  }

  /** A batch applied again after an attempt that stopped anywhere, its consumed mark lost or never made: rows
      and points end as a single application from the first state would leave them, failures included. */
  method Replay(o: PipelineOrchestrator, events: seq<Event>, chunking: Digest) returns (alive: bool, failed: set<DocId>)
    requires o.Valid() && HonestEvents(events) && events != []
    modifies o, o.index
    ensures o.Valid() && (o.calm ==> alive)
    ensures alive ==> forall d ::
              EndedView(o.cfg, Upserts(events), failed, chunking, d, AfterEvents(old(o.ViewOf(d)), d, events),
                        o.ViewOf(d))
  {
    var first, firstFailed := o.IngestBatch(events, chunking, false);
    label stopped:
    o.calm := *;
    alive, failed := o.IngestBatch(events, chunking, false);
    forall d | alive
      ensures EndedView(o.cfg, Upserts(events), failed, chunking, d, AfterEvents(old(o.ViewOf(d)), d, events),
                        o.ViewOf(d))
    {
      ReplayLeavesNoTrace(o.cfg, events, failed, chunking, d, old(o.ViewOf(d)), old@stopped(o.ViewOf(d)), o.ViewOf(d));
    }
  }

  /** A document can follow this state of it: there is none, or a parser reads it. */
  ghost predicate CanFollow(cfg: Config, current: Option<SourceDoc>) {
    current.Some? ==> !cfg.unreadable(current.value.content)
  }

  /** What a document that follows or admits its failure says about both. */
  lemma FollowsExactly(cfg: Config, chunking: Digest, d: DocId, current: Option<SourceDoc>, v: View)
    requires FollowsOrFailed(cfg, chunking, current, v) && DocOk(cfg, d, v)
    ensures Follows(cfg, chunking, current, v) <==> !(current.Some? && MarkedFailed(v, current.value))
    ensures Follows(cfg, chunking, current, v) ==> CanFollow(cfg, current)
    ensures Excused(cfg, v.row) && CanFollow(cfg, current) ==> Follows(cfg, chunking, current, v)
  {
  }

  /** Consuming the log: any number of interrupted incremental runs and one that lives to its end leave every
      document as the log says, or marked as failed in its row. A batch whose consumed mark was lost in a crash
      is replayed without a trace. In calm, exactly the unreadable documents are left behind. And where events
      of one document contradict each other inside a batch, the order of events loses. */
  method FollowLog(o: PipelineOrchestrator, log: DeltaLog, chunking: Digest, interruptions: nat)
    returns (alive: bool)
    requires o.Valid() && o.consumed == 0 && HonestLog(log) && forall d :: o.ViewOf(d).row == None
    modifies o, o.index
    ensures o.Valid() && (old(o.calm) ==> alive)
    ensures alive ==> o.consumed == |log|
    ensures alive ==> forall d :: FollowsOrFailed(o.cfg, chunking, Live(d, log), o.ViewOf(d))
    ensures alive ==> forall d :: (Follows(o.cfg, chunking, Live(d, log), o.ViewOf(d)) <==>
                                   !(Live(d, log).Some? && MarkedFailed(o.ViewOf(d), Live(d, log).value)))
    ensures alive && old(o.calm) ==> forall d ::
              (Follows(o.cfg, chunking, Live(d, log), o.ViewOf(d)) <==> CanFollow(o.cfg, Live(d, log)))
    ensures alive ==> forall d :: Follows(o.cfg, chunking, Live(d, log), o.ViewOf(d)) ==>
              (Follows(o.cfg, chunking, LiveInOrder(d, log), o.ViewOf(d)) <==> !EndsRemovedAgain(d, log))
  {
    hide DocOk, Follows, MarkedFailed, AfterEvents;
    forall d ensures Tracks(o.cfg, chunking, log, 0, d, o.ViewOf(d)) {
      FreshTracks(o.cfg, chunking, log, d, o.ViewOf(d));
    }
    assert o.OnlyUnreadableFailed() by {
      forall d ensures Excused(o.cfg, Get(o.rows, d)) { assert o.ViewOf(d).row == None; }
    }
    alive := true;
    for i := 0 to interruptions + 1
      invariant o.Valid() && o.consumed <= |log| && o.calm == old(o.calm) && (o.calm ==> alive)
      invariant alive && i > 0 ==> o.consumed == |log|
      invariant forall d :: Tracks(o.cfg, chunking, log, o.consumed, d, o.ViewOf(d))
      invariant o.calm ==> o.OnlyUnreadableFailed()
    {
      var failed;
      alive, failed := o.IngestIncremental(log, chunking, false);
    }
    assert log[..|log|] == log;
    forall d | alive
      ensures FollowsOrFailed(o.cfg, chunking, Live(d, log), o.ViewOf(d))
      ensures Follows(o.cfg, chunking, Live(d, log), o.ViewOf(d))
              <==> !(Live(d, log).Some? && MarkedFailed(o.ViewOf(d), Live(d, log).value))
      ensures o.calm ==> (Follows(o.cfg, chunking, Live(d, log), o.ViewOf(d)) <==> CanFollow(o.cfg, Live(d, log)))
      ensures Follows(o.cfg, chunking, Live(d, log), o.ViewOf(d)) ==>
                (Follows(o.cfg, chunking, LiveInOrder(d, log), o.ViewOf(d)) <==> !EndsRemovedAgain(d, log))
    {
      FollowedExactly(o, chunking, log, d);
    }
  }

  lemma FreshTracks(cfg: Config, chunking: Digest, log: DeltaLog, d: DocId, v: View)
    requires v.row == None && DocOk(cfg, d, v)
    ensures Tracks(cfg, chunking, log, 0, d, v)
  {
    assert |log[..0]| == 0;
  }

  lemma FollowedExactly(o: PipelineOrchestrator, chunking: Digest, log: DeltaLog, d: DocId)
    requires o.Valid() && FollowsOrFailed(o.cfg, chunking, Live(d, log), o.ViewOf(d))
    ensures Follows(o.cfg, chunking, Live(d, log), o.ViewOf(d))
            <==> !(Live(d, log).Some? && MarkedFailed(o.ViewOf(d), Live(d, log).value))
    ensures o.OnlyUnreadableFailed() ==>
              (Follows(o.cfg, chunking, Live(d, log), o.ViewOf(d)) <==> CanFollow(o.cfg, Live(d, log)))
    ensures Follows(o.cfg, chunking, Live(d, log), o.ViewOf(d)) ==>
              (Follows(o.cfg, chunking, LiveInOrder(d, log), o.ViewOf(d)) <==> !EndsRemovedAgain(d, log))
  {
    hide DocOk, Follows;
    assert DocOk(o.cfg, d, o.ViewOf(d));
    assert o.OnlyUnreadableFailed() ==> Excused(o.cfg, Get(o.rows, d));
    FollowsExactly(o.cfg, chunking, d, Live(d, log), o.ViewOf(d));
    LiveIsInOrderExactly(d, log);
    if Follows(o.cfg, chunking, Live(d, log), o.ViewOf(d)) {
      FollowsOne(o.cfg, chunking, Live(d, log), LiveInOrder(d, log), o.ViewOf(d));
    }
  }

  /** The failing input: a new pipeline in which nothing else fails consumes a batch with a document that no parser
      reads. The batch counts as consumed, the document is marked failed and does not follow the log. */
  method UnreadableIsConsumed(o: PipelineOrchestrator, document: SourceDoc, chunking: Digest)
    returns (alive: bool)
    requires o.Valid() && o.calm && o.consumed == 0 && forall d :: o.ViewOf(d).row == None
    requires o.cfg.unreadable(document.content)
    modifies o, o.index
    ensures alive && o.consumed == 1
    ensures Live(document.id, [[Event(document.id, false, Some(document))]]) == Some(document)
    ensures MarkedFailed(o.ViewOf(document.id), document)
    ensures !Follows(o.cfg, chunking, Some(document), o.ViewOf(document.id))
  {
    var event := Event(document.id, false, Some(document));
    var log := [[event]];
    assert |[event][..0]| == 0;
    assert Live(document.id, log) == Some(document) by {
      assert Upserts([event]) == map[document.id := document];
    }
    alive := FollowLog(o, log, chunking, 0);
    assert FollowsOrFailed(o.cfg, chunking, Live(document.id, log), o.ViewOf(document.id));
  }

  /** One synchronization of the source, which may fail, and an incremental run after it, which may die. */
  datatype Round = Round(current: Records, commits: bool, calm: bool)

  /** Tracking a log means tracking every log that begins with it. */
  lemma LongerLogTracks(cfg: Config, chunking: Digest, log: DeltaLog, longer: DeltaLog, k: nat, d: DocId, v: View)
    requires log <= longer && k <= |log| && Tracks(cfg, chunking, log, k, d, v)
    ensures Tracks(cfg, chunking, longer, k, d, v)
  {
    assert longer[..k] == log[..k];
    if k < |log| { assert longer[..k + 1] == log[..k + 1] && longer[k] == log[k]; }
  }

  /** The document is active exactly if its last published record is available, and then has the content and the
      metadata of that record, and the texts of that content as its points. */
  ghost predicate ShowsRecord(cfg: Config, p: Publisher, d: DocId, v: View)
    reads p
  {
    && (Active(v) <==> d in p.documents && !p.documents[d].deleted && p.documents[d].record.status == Available)
    && (Active(v) ==>
          && Some(v.row.value.document.content) == p.documents[d].record.content
          && v.row.value.document.metadata == p.documents[d].record.metadata
          && FreshView(cfg, d, v.row.value.document, v))
  }

  lemma FollowerShowsRecord(cfg: Config, chunking: Digest, p: Publisher, d: DocId, v: View)
    requires p.Valid() && DocOk(cfg, d, v) && Follows(cfg, chunking, p.Snapshot(d), v)
    ensures ShowsRecord(cfg, p, d, v)
  {
    if d in p.documents {
      DocumentLoads(p.documents[d].record);
      if Active(v) { ReadyIsFresh(cfg, chunking, v.row.value.document, v); }
    }
  }

  /** The publisher knows exactly these records. */
  ghost predicate Holds(documents: Store, current: Records) {
    forall d :: (Known(documents, d) <==> d in current) && (d in current ==> documents[d].record == current[d])
  }

  /** The last of the rounds that commits. */
  ghost predicate LastCommit(rounds: seq<Round>, j: int) {
    0 <= j < |rounds| && rounds[j].commits && forall k :: j < k < |rounds| ==> !rounds[k].commits
  }

  /** What the publisher knows is what the last committed round gave it, or else what it knew before. */
  ghost predicate Published(before: Store, rounds: seq<Round>, after: Store) {
    && (forall j :: LastCommit(rounds, j) ==> Holds(after, rounds[j].current))
    && ((forall j :: 0 <= j < |rounds| ==> !rounds[j].commits) ==> after == before)
  }

  lemma PublishedNext(before: Store, rounds: seq<Round>, i: nat, middle: Store, after: Store)
    requires i < |rounds| && Published(before, rounds[..i], middle)
    requires if rounds[i].commits then Holds(after, rounds[i].current) else after == middle
    ensures Published(before, rounds[..i + 1], after)
  {
    var shorter, longer := rounds[..i], rounds[..i + 1];
    assert longer == shorter + [rounds[i]];
    forall j | LastCommit(longer, j) ensures Holds(after, longer[j].current) {
      if j < i {
        assert !longer[i].commits;
        assert forall k :: j < k < i ==> shorter[k] == longer[k];
        assert LastCommit(shorter, j);
      }
    }
    if forall j :: 0 <= j < |longer| ==> !longer[j].commits {
      assert forall j :: 0 <= j < i ==> shorter[j] == longer[j];
      assert !longer[i].commits;
    }
  }

  /** Publisher and pipeline side by side: any number of synchronizations, each followed by an incremental run that
      may die anywhere, and a last run that lives to its end. Every document then is as the published snapshot
      says, or marked as failed; in calm, exactly the unreadable ones are. */
  method FollowPublisher(o: PipelineOrchestrator, p: Publisher, rounds: seq<Round>, chunking: Digest)
    returns (alive: bool)
    requires o.Valid() && o.consumed == 0 && forall d :: o.ViewOf(d).row == None
    requires p.Valid() && forall i :: 0 <= i < |rounds| ==> HonestRecords(rounds[i].current)
    modifies o, o.index, p
    ensures o.Valid() && p.Valid() && Published(old(p.documents), rounds, p.documents)
    ensures alive ==> o.consumed == |p.log|
    ensures alive ==> forall d :: FollowsOrFailed(o.cfg, chunking, p.Snapshot(d), o.ViewOf(d))
    ensures alive ==> forall d :: Follows(o.cfg, chunking, p.Snapshot(d), o.ViewOf(d)) ==>
              ShowsRecord(o.cfg, p, d, o.ViewOf(d))
    ensures (forall i :: 0 <= i < |rounds| ==> rounds[i].calm) ==>
              alive && forall d ::
                (Follows(o.cfg, chunking, p.Snapshot(d), o.ViewOf(d)) <==> CanFollow(o.cfg, p.Snapshot(d)))
  {
    hide DocOk, Follows, MarkedFailed, AfterEvents, Published;
    Synchronize(o, p, rounds, chunking);
    o.calm := forall i | 0 <= i < |rounds| :: rounds[i].calm;
    var failed;
    alive, failed := o.IngestIncremental(p.log, chunking, false);
    assert p.log[..|p.log|] == p.log;
    forall d | alive
      ensures FollowsOrFailed(o.cfg, chunking, p.Snapshot(d), o.ViewOf(d))
      ensures o.OnlyUnreadableFailed() ==>
                (Follows(o.cfg, chunking, p.Snapshot(d), o.ViewOf(d)) <==> CanFollow(o.cfg, p.Snapshot(d)))
    {
      assert Live(d, p.log) == p.Snapshot(d);
      FollowedExactly(o, chunking, p.log, d);
    }
    forall d | alive && Follows(o.cfg, chunking, p.Snapshot(d), o.ViewOf(d))
      ensures ShowsRecord(o.cfg, p, d, o.ViewOf(d))
    {
      assert DocOk(o.cfg, d, o.ViewOf(d));
      FollowerShowsRecord(o.cfg, chunking, p, d, o.ViewOf(d));
    }
  }

  /** Every document is where the consumed part of the published log left it, or under way from there. */
  ghost predicate TracksPublisher(o: PipelineOrchestrator, p: Publisher, chunking: Digest)
    reads o, o.index, p
  {
    && o.Valid() && p.Valid() && o.consumed <= |p.log|
    && forall d :: Tracks(o.cfg, chunking, p.log, o.consumed, d, o.ViewOf(d))
  }

  lemma Fresh(o: PipelineOrchestrator, p: Publisher, chunking: Digest)
    requires o.Valid() && p.Valid() && o.consumed == 0 && forall d :: o.ViewOf(d).row == None
    ensures TracksPublisher(o, p, chunking) && o.OnlyUnreadableFailed()
  {
    hide DocOk;
    forall d ensures Tracks(o.cfg, chunking, p.log, 0, d, o.ViewOf(d)) {
      assert DocOk(o.cfg, d, o.ViewOf(d));
      FreshTracks(o.cfg, chunking, p.log, d, o.ViewOf(d));
    }
    forall d ensures Excused(o.cfg, Get(o.rows, d)) { assert o.ViewOf(d).row == None; }
  }

  /** Each synchronization is followed by an incremental run. */
  method Synchronize(o: PipelineOrchestrator, p: Publisher, rounds: seq<Round>, chunking: Digest)
    requires o.Valid() && o.consumed == 0 && forall d :: o.ViewOf(d).row == None
    requires p.Valid() && forall i :: 0 <= i < |rounds| ==> HonestRecords(rounds[i].current)
    modifies o, o.index, p
    ensures TracksPublisher(o, p, chunking) && Published(old(p.documents), rounds, p.documents)
    ensures AllCalm(rounds) ==> o.OnlyUnreadableFailed()
    decreases |rounds|
  {
    hide *;
    if rounds == [] {
      Fresh(o, p, chunking);
      NonePublished(p.documents);
    } else {
      var n := |rounds| - 1;
      AllCalmNext(rounds, n);
      Synchronize(o, p, rounds[..n], chunking);
      ghost var middle := p.documents;
      OneRound(o, p, rounds[n], chunking);
      PublishedNext(old(p.documents), rounds, n, middle, p.documents);
      assert rounds[..n + 1] == rounds;
    }
  }

  ghost predicate AllCalm(rounds: seq<Round>) {
    forall i :: 0 <= i < |rounds| ==> rounds[i].calm
  }

  lemma AllCalmNext(rounds: seq<Round>, n: nat)
    requires |rounds| == n + 1
    ensures AllCalm(rounds) ==> AllCalm(rounds[..n]) && rounds[n].calm
  {
  }

  lemma NonePublished(documents: Store)
    ensures Published(documents, [], documents)
  {
  }

  method OneRound(o: PipelineOrchestrator, p: Publisher, round: Round, chunking: Digest)
    requires TracksPublisher(o, p, chunking) && HonestRecords(round.current)
    modifies o, o.index, p
    ensures TracksPublisher(o, p, chunking)
    ensures round.calm && old(o.OnlyUnreadableFailed()) ==> o.OnlyUnreadableFailed()
    ensures if round.commits then Holds(p.documents, round.current) else p.documents == old(p.documents)
  {
    hide DocOk, Follows, MarkedFailed, AfterEvents;
    ghost var log := p.log;
    p.Publish(round.current, round.commits);
    forall d ensures Tracks(o.cfg, chunking, p.log, o.consumed, d, o.ViewOf(d)) {
      LongerLogTracks(o.cfg, chunking, log, p.log, o.consumed, d, o.ViewOf(d));
    }
    o.calm := round.calm;
    var alive, failed := o.IngestIncremental(p.log, chunking, false);
  }

  /** The document is the same in both pipelines: active exactly if in the snapshot, then with the same row, and
      with the same points once pending deletions are applied. */
  ghost predicate Alike(documents: Documents, d: DocId, v: View, w: View) {
    && Active(v) == Active(w) == (d in documents)
    && (d in documents ==> v.row == w.row)
    && Settled(v) == w.points
  }

  lemma FollowersAlike(cfg: Config, documents: Documents, chunking: Digest, d: DocId, v: View, w: View)
    requires FollowsOrFailed(cfg, chunking, Get(documents, d), v) && Follows(cfg, chunking, Get(documents, d), w)
    requires DocOk(cfg, d, v) && DocOk(cfg, d, w) && (d !in documents ==> w.points == map[])
    ensures Alike(documents, d, v, w) <==> !(d in documents && MarkedFailed(v, documents[d]))
  {
    FollowsExactly(cfg, chunking, d, Get(documents, d), v);
  }

  /** A pipeline that only ever consumed the published log and one that reconciled the published snapshot agree on
      every document, except exactly those whose rows the first has marked as failed. Where nothing fails, both
      get to their ends if every document can be read, and then agree on all of them. */
  method IncrementalEqualsFull(o: PipelineOrchestrator, p: Publisher, documents: Documents, chunking: Digest,
                               interruptions: nat)
    returns (complete: bool, full: PipelineOrchestrator)
    requires o.Valid() && o.consumed == 0 && forall d :: o.ViewOf(d).row == None
    requires p.Valid() && documents != map[] && forall d :: Get(documents, d) == p.Snapshot(d)
    modifies o, o.index
    ensures o.Valid()
    ensures old(o.calm) ==> (complete <==> Readable(o.cfg, documents))
    ensures complete ==> forall d | !(d in documents && MarkedFailed(o.ViewOf(d), documents[d])) ::
              Alike(documents, d, o.ViewOf(d), full.ViewOf(d))
    ensures complete && old(o.calm) ==> forall d :: Alike(documents, d, o.ViewOf(d), full.ViewOf(d))
  {
    hide DocOk, ReadyRow, ScratchPoints, MarkedFailed, Alike, Follows;
    var index := new QdrantIndex(o.index.upsertBatchSize);
    full := new PipelineOrchestrator(o.cfg, index, o.batchSize);
    full.calm := o.calm;
    forall d ensures Live(d, p.log) == Get(documents, d) && (d in documents ==> documents[d].id == d) {
      assert Get(documents, d) == p.Snapshot(d);
    }
    var alive := FollowLog(o, p.log, chunking, interruptions);
    var fullAlive, fullFailed := full.Reconcile(documents, p.log, chunking, false);
    complete := alive && fullAlive && fullFailed == {};
    forall d | complete
      ensures Alike(documents, d, o.ViewOf(d), full.ViewOf(d))
              <==> !(d in documents && MarkedFailed(o.ViewOf(d), documents[d]))
      ensures old(o.calm) ==> Alike(documents, d, o.ViewOf(d), full.ViewOf(d))
    {
      assert FollowsOrFailed(o.cfg, chunking, Live(d, p.log), o.ViewOf(d));
      assert full.Reconciled(documents, chunking, d, full.ViewOf(d));
      assert DocOk(o.cfg, d, o.ViewOf(d)) && DocOk(o.cfg, d, full.ViewOf(d));
      FollowersAlike(o.cfg, documents, chunking, d, o.ViewOf(d), full.ViewOf(d));
    }
  }
}
