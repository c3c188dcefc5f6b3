/** The pipeline coordinator: full, incremental, resumed, parse-only and embed runs over the document rows,
    the artifact files and the index, any of which may fail or die before each durable write.

    A database transaction is one assignment to the fields. The source's lists of distinct documents sorted
    by id are maps here and are processed in an arbitrary order, which covers the sorted one. A method that
    returns `alive == false` has stopped at some point between two durable writes. */
module Orchestrator {
  import opened Hashing
  import opened PipelineRows
  import opened PointStore
  import opened Wrappers

  type Documents = map<DocId, SourceDoc>

  /** One row of a delta: an upsert carries a ready document, anything else makes the document unavailable. */
  datatype Event = Event(id: DocId, deletes: bool, document: Option<SourceDoc>)

  predicate Gone(e: Event) {
    e.deletes || e.document.None?
  }

  /** The status the batch leaves a document in when it makes it unavailable: the last such event's. */
  function LastGone(d: DocId, events: seq<Event>): (status: Option<Source>)
    ensures status != Some(SourceReady)
    decreases |events|
  {
    if events == [] then None
    else
      var e := events[|events| - 1];
      if e.id == d && Gone(e) then Some(if e.deletes then Deleted else Unavailable)
      else LastGone(d, events[..|events| - 1])
  }

  /** The last event of the batch that makes the document unavailable is event `i`. */
  ghost predicate LastGoneAt(d: DocId, events: seq<Event>, i: nat) {
    && i < |events| && events[i].id == d && Gone(events[i])
    && forall j :: i < j < |events| && events[j].id == d ==> !Gone(events[j])
  }

  lemma {:induction false} LastGoneExactly(d: DocId, events: seq<Event>, i: nat)
    ensures LastGone(d, events).None? <==> forall e :: e in events && e.id == d ==> !e.deletes && e.document.Some?
    ensures LastGoneAt(d, events, i) ==> LastGone(d, events) == Some(if events[i].deletes then Deleted else Unavailable)
    decreases |events|
  {
    if events != [] {
      var n := |events| - 1;
      assert events == events[..n] + [events[n]];
      LastGoneExactly(d, events[..n], i);
      if LastGoneAt(d, events, i) && i < n { assert LastGoneAt(d, events[..n], i); }
    }
  }

  /** What the source transaction of a batch does to a document. */
  function AfterEvents(v: View, d: DocId, events: seq<Event>): View {
    match LastGone(d, events)
    case None => v
    case Some(status) => UnavailableView(v, status)
  }

  function Upserts(events: seq<Event>): Documents
    decreases |events|
  {
    if events == [] then map[]
    else
      var before := Upserts(events[..|events| - 1]);
      var e := events[|events| - 1];
      if Gone(e) then before else before[e.id := e.document.value]
  }

  /** What the publisher guarantees of a batch: documents under their own ids, none upserted twice. */
  ghost predicate HonestEvents(events: seq<Event>) {
    && (forall e :: e in events && e.document.Some? ==> e.document.value.id == e.id)
    && DistinctUpserts(events)
  }

  ghost predicate DistinctUpserts(events: seq<Event>) {
    forall i, j :: 0 <= i < j < |events| && !Gone(events[i]) && !Gone(events[j]) ==> events[i].id != events[j].id
  }

  ghost predicate HonestDocuments(documents: Documents) {
    forall d :: d in documents ==> documents[d].id == d
  }

  lemma {:induction false} UpsertsHonest(events: seq<Event>)
    requires HonestEvents(events)
    ensures HonestDocuments(Upserts(events))
    decreases |events|
  {
    if events != [] {
      UpsertsHonest(events[..|events| - 1]);
    }
  }

  lemma {:induction false} EventsMention(events: seq<Event>)
    ensures Upserts(events) == map[] && (forall d :: LastGone(d, events).None?) ==> events == []
    decreases |events|
  {
    if events != [] {
      var e := events[|events| - 1];
      assert if Gone(e) then LastGone(e.id, events).Some? else e.id in Upserts(events);
    }
  }

  function Get<V>(m: map<DocId, V>, d: DocId): Option<V> {
    if d in m then Some(m[d]) else None
  }

  /** The state in which an error-free run over `documents` leaves document `d`. */
  ghost predicate ProcessedView(cfg: Config, documents: Documents, chunking: Digest, d: DocId, v0: View, v: View) {
    && !PendingDelete(v.op)
    && if d in documents then
         v.row == Some(ReadyRow(cfg, documents[d], chunking)) && v.points == ScratchPoints(cfg, documents[d], chunking)
       else
         v.row == v0.row && v.points == Settled(v0)
  }

  /** The row says that parsing or chunking this document failed. */
  ghost predicate MarkedFailed(v: View, document: SourceDoc) {
    && v.row.Some? && v.row.value.document == document && v.row.value.source == SourceReady
    && (v.row.value.parse == Failed || v.row.value.chunk == Failed)
  }

  /** A row marked failed stands for a document that no parser reads. */
  ghost predicate Excused(cfg: Config, row: Option<Row>) {
    row.Some? && row.value.source == SourceReady && (row.value.parse == Failed || row.value.chunk == Failed) ==>
      cfg.unreadable(row.value.document.content)
  }

  /** Chunked at the current fingerprints, or marked failed. */
  ghost predicate ParsedView(cfg: Config, document: SourceDoc, failed: bool, chunking: Digest, v: View) {
    if failed then MarkedFailed(v, document)
    else v.row.Some? && ChunkedOk(cfg, v.row.value, document, chunking)
  }

  /** The state in which a run that lives to its end leaves document `d`. What failed is marked so and has no
      points left; everything else is as an error-free run leaves it. */
  ghost predicate EndedView(cfg: Config, documents: Documents, failed: set<DocId>, chunking: Digest, d: DocId,
                            v0: View, v: View)
  {
    if d in failed then d in documents && MarkedFailed(v, documents[d]) && v.points == map[] && !PendingDelete(v.op)
    else ProcessedView(cfg, documents, chunking, d, v0, v)
  }

  /** What was there before matters only for the documents a run was not about; a run that embeds has also parsed. */
  lemma EndedParsed(cfg: Config, documents: Documents, failed: set<DocId>, chunking: Digest, d: DocId,
                    v0: View, v1: View, v: View)
    requires EndedView(cfg, documents, failed, chunking, d, v1, v) && (d !in documents ==> v1 == v0)
    ensures EndedView(cfg, documents, failed, chunking, d, v0, v)
    ensures d in documents ==> ParsedView(cfg, documents[d], d in failed, chunking, v)
  {
  }

  /** The points are the texts of the row's chunks with the vectors of those texts, and none of them belongs to the
      document with another content, whatever the chunking. */
  ghost predicate FreshView(cfg: Config, d: DocId, document: SourceDoc, v: View) {
    && v.row.Some? && v.row.value.document == document && v.row.value.chunkFp.Some?
    && CarriesTexts(cfg, d, cfg.texts(v.row.value.chunkFp.value), v.points)
    && forall content, k :: content != document.content ==>
         v.points.Keys !! PointsFor(cfg, d, ChunkFingerprint(k, Produced(cfg, content))).Keys
  }

  lemma ReadyIsFresh(cfg: Config, chunking: Digest, document: SourceDoc, v: View)
    requires v.row == Some(ReadyRow(cfg, document, chunking)) && v.points == ScratchPoints(cfg, document, chunking)
    ensures FreshView(cfg, document.id, document, v)
  {
    var made := ChunkFingerprint(chunking, Produced(cfg, document.content));
    PointsCarryTexts(cfg, document.id, made);
    forall content, k | content != document.content
      ensures v.points.Keys !! PointsFor(cfg, document.id, ChunkFingerprint(k, Produced(cfg, content))).Keys
    {
      ChunksOfContent(cfg, chunking, document.content, k, content);
      OtherVersionsApart(cfg, document.id, made, ChunkFingerprint(k, Produced(cfg, content)));
    }
  }

  lemma EndedFresh(cfg: Config, documents: Documents, failed: set<DocId>, chunking: Digest, d: DocId, v0: View, v: View)
    requires EndedView(cfg, documents, failed, chunking, d, v0, v) && HonestDocuments(documents)
    requires d in documents && d !in failed
    ensures FreshView(cfg, d, documents[d], v)
  {
    ReadyIsFresh(cfg, chunking, documents[d], v);
  }

  /** Chunks tell contents and chunkings apart. */
  lemma ChunksOfContent(cfg: Config, chunking1: Digest, content1: Digest, chunking2: Digest, content2: Digest)
    ensures ChunkFingerprint(chunking1, Produced(cfg, content1)) == ChunkFingerprint(chunking2, Produced(cfg, content2))
            <==> content1 == content2 && chunking1 == chunking2
  {
    var parser2 := if cfg.rejects(content2) then cfg.fallback else cfg.primary;
    var ocr2 := !cfg.rejects(content2) && cfg.ocr && parser2.name != "pymupdf";
    var parser1 := if cfg.rejects(content1) then cfg.fallback else cfg.primary;
    var ocr1 := !cfg.rejects(content1) && cfg.ocr && parser1.name != "pymupdf";
    ProducedDetermines(cfg, content1, content1, parser1, ocr1);
    ProducedDetermines(cfg, content2, content2, parser2, ocr2);
    ChunkFingerprintDetermines(chunking1, content1, parser1, ocr1, chunking2, content2, parser2, ocr2);
  }

  /** A document that a run was not about: at most a pending deletion of its points has been carried out. */
  ghost predicate Bystander(v0: View, v: View) {
    v.row == v0.row && Settled(v) == Settled(v0)
  }

  lemma BystanderThrough(v0: View, v1: View, v2: View)
    requires v1 == v0 || Bystander(v0, v1)
    requires v2 == v1 || Bystander(v1, v2)
    ensures Bystander(v0, v2) && v2.row == v1.row
  {
  }

  /** Where nothing else fails, a batch marks only what no parser reads. */
  lemma ExcusedStays(cfg: Config, events: seq<Event>, failed: set<DocId>, chunking: Digest, d: DocId, v0: View, v: View)
    requires Excused(cfg, v0.row)
    requires if d in Upserts(events) then
               ParsedView(cfg, Upserts(events)[d], d in failed, chunking, v)
               && (d in failed ==> cfg.unreadable(Upserts(events)[d].content))
             else Bystander(AfterEvents(v0, d, events), v)
    ensures Excused(cfg, v.row)
  {
  }

  /** The points of a document once a pending deletion has been applied. */
  function Settled(v: View): Points {
    if PendingDelete(v.op) then map[] else v.points
  }

  /** Embedded and indexed from view `v0`. */
  ghost predicate IndexedFrom(cfg: Config, d: DocId, v0: View, v: View) {
    && v0.row.Some? && v0.row.value.chunkFp.Some?
    && v.row == Some(IndexedRow(cfg, v0.row.value)) && v.op == Completed(v0.op)
    && v.points == PointsFor(cfg, d, v0.row.value.chunkFp.value)
  }

  /** The current state of a document according to a delta log as the pipeline reads it: the last batch that
      mentions it decides, and within a batch its upsert outweighs its removal. */
  function Live(d: DocId, log: seq<seq<Event>>): Option<SourceDoc>
    decreases |log|
  {
    if log == [] then None
    else
      var batch := log[|log| - 1];
      if d in Upserts(batch) then Some(Upserts(batch)[d])
      else if LastGone(d, batch).Some? then None
      else Live(d, log[..|log| - 1])
  }

  /** What the events of a batch say in their order: the last one about the document decides. */
  function InOrder(d: DocId, events: seq<Event>, before: Option<SourceDoc>): Option<SourceDoc>
    decreases |events|
  {
    if events == [] then before
    else
      var e := events[|events| - 1];
      if e.id == d then (if Gone(e) then None else e.document) else InOrder(d, events[..|events| - 1], before)
  }

  /** The current state of a document if every event counted in its order. */
  function LiveInOrder(d: DocId, log: seq<seq<Event>>): Option<SourceDoc>
    decreases |log|
  {
    if log == [] then None
    else InOrder(d, log[|log| - 1], LiveInOrder(d, log[..|log| - 1]))
  }

  predicate Mentions(d: DocId, events: seq<Event>) {
    exists e :: e in events && e.id == d
  }

  /** The document is upserted, and the last event about it removes it. */
  predicate RemovedAgain(d: DocId, events: seq<Event>) {
    d in Upserts(events) && InOrder(d, events, Some(Upserts(events)[d])).None?
  }

  /** The last batch that mentions the document first upserts it and then removes it. */
  predicate EndsRemovedAgain(d: DocId, log: seq<seq<Event>>)
    decreases |log|
  {
    if log == [] then false
    else if Mentions(d, log[|log| - 1]) then RemovedAgain(d, log[|log| - 1])
    else EndsRemovedAgain(d, log[..|log| - 1])
  }

  lemma {:induction false} BatchInOrder(d: DocId, events: seq<Event>, before: Option<SourceDoc>)
    ensures Mentions(d, events) <==> d in Upserts(events) || LastGone(d, events).Some?
    ensures !Mentions(d, events) ==> InOrder(d, events, before) == before
    ensures Mentions(d, events) && d !in Upserts(events) ==> InOrder(d, events, before) == None
    ensures d in Upserts(events) ==> InOrder(d, events, before) in {None, Some(Upserts(events)[d])}
    ensures Mentions(d, events) ==> InOrder(d, events, before) == InOrder(d, events, None)
    decreases |events|
  {
    if events != [] {
      var front, e := events[..|events| - 1], events[|events| - 1];
      BatchInOrder(d, front, before);
      assert events == front + [e];
      assert Mentions(d, events) <==> Mentions(d, front) || e.id == d;
    }
  }

  /** The pipeline's reading of a log is the order of events if and only if the last batch that mentions the
      document does not upsert it and remove it afterwards. */
  lemma {:induction false} LiveIsInOrderExactly(d: DocId, log: seq<seq<Event>>)
    ensures Live(d, log) == LiveInOrder(d, log) <==> !EndsRemovedAgain(d, log)
    decreases |log|
  {
    if log != [] {
      var front, batch := log[..|log| - 1], log[|log| - 1];
      LiveIsInOrderExactly(d, front);
      BatchInOrder(d, batch, LiveInOrder(d, front));
      BatchInOrder(d, batch, Some(if d in Upserts(batch) then Upserts(batch)[d] else SourceDoc(d, Text(""), Text(""))));
    }
  }

  /** The failing input: one batch that upserts a document and then deletes it leaves it alive. */
  lemma RemovalAfterUpsertIgnored(document: SourceDoc)
    ensures var log := [[Event(document.id, false, Some(document)), Event(document.id, true, None)]];
            Live(document.id, log) == Some(document) && LiveInOrder(document.id, log) == None
  {
    var upsert, removal := Event(document.id, false, Some(document)), Event(document.id, true, None);
    var batch := [upsert, removal];
    assert batch[..1] == [upsert] && |[upsert][..0]| == 0;
    assert Upserts([upsert]) == map[document.id := document];
  }

  /** Rows and points are those of a build from nothing of the current document, if there is one. */
  ghost predicate Follows(cfg: Config, chunking: Digest, current: Option<SourceDoc>, v: View) {
    match current
    case Some(document) =>
      v.row == Some(ReadyRow(cfg, document, chunking)) && Settled(v) == ScratchPoints(cfg, document, chunking)
    case None =>
      (v.row.Some? ==> v.row.value.source != SourceReady) && Settled(v) == map[]
  }

  /** A document follows at most one state of it. */
  lemma FollowsOne(cfg: Config, chunking: Digest, a: Option<SourceDoc>, b: Option<SourceDoc>, v: View)
    requires Follows(cfg, chunking, a, v)
    ensures Follows(cfg, chunking, b, v) <==> a == b
  {
  }

  /** The document follows its current state, or its row admits that it does not. */
  ghost predicate FollowsOrFailed(cfg: Config, chunking: Digest, current: Option<SourceDoc>, v: View) {
    Follows(cfg, chunking, current, v) || (current.Some? && MarkedFailed(v, current.value))
  }

  /** With `k` batches consumed, a document follows the log so far unless the next batch is already under way. */
  ghost predicate Tracks(cfg: Config, chunking: Digest, log: seq<seq<Event>>, k: nat, d: DocId, v: View)
    requires k <= |log|
  {
    || FollowsOrFailed(cfg, chunking, Live(d, log[..k]), v)
    || (k < |log| && (d in Upserts(log[k]) || FollowsOrFailed(cfg, chunking, Live(d, log[..k + 1]), v)))
  }

  lemma LiveNext(d: DocId, log: seq<seq<Event>>, k: nat)
    requires k < |log|
    ensures Live(d, log[..k + 1]) ==
            if d in Upserts(log[k]) then Some(Upserts(log[k])[d])
            else if LastGone(d, log[k]).Some? then None
            else Live(d, log[..k])
  {
    assert log[..k + 1][..k] == log[..k];
  }

  /** A finished batch brings the document to the state after it, wherever an earlier attempt had stopped. A
      document of the batch follows the log if and only if it did not fail. */
  lemma BatchAdvances(cfg: Config, chunking: Digest, log: seq<seq<Event>>, k: nat, failed: set<DocId>, d: DocId,
                      v0: View, v: View)
    requires k < |log| && Tracks(cfg, chunking, log, k, d, v0)
    requires if log[k] == [] then v == v0
             else EndedView(cfg, Upserts(log[k]), failed, chunking, d, AfterEvents(v0, d, log[k]), v)
    ensures FollowsOrFailed(cfg, chunking, Live(d, log[..k + 1]), v)
    ensures d in Upserts(log[k]) ==> (Follows(cfg, chunking, Live(d, log[..k + 1]), v) <==> d !in failed)
  {
    LiveNext(d, log, k);
  }

  /** An interrupted batch leaves the document tracking. */
  lemma BatchInterrupted(cfg: Config, chunking: Digest, log: seq<seq<Event>>, k: nat, d: DocId, v0: View, v: View)
    requires k < |log| && Tracks(cfg, chunking, log, k, d, v0)
    requires d !in Upserts(log[k]) ==> Bystander(v0, v) || Bystander(AfterEvents(v0, d, log[k]), v)
    ensures Tracks(cfg, chunking, log, k, d, v)
  {
    LiveNext(d, log, k);
  }

  /** Applying a batch after an attempt at it that stopped anywhere is like applying it once. */
  lemma ReplayLeavesNoTrace(cfg: Config, events: seq<Event>, failed: set<DocId>, chunking: Digest, d: DocId,
                            v0: View, v1: View, v2: View)
    requires d !in Upserts(events) ==> Bystander(v0, v1) || Bystander(AfterEvents(v0, d, events), v1)
    requires EndedView(cfg, Upserts(events), failed, chunking, d, AfterEvents(v1, d, events), v2)
    ensures EndedView(cfg, Upserts(events), failed, chunking, d, AfterEvents(v0, d, events), v2)
  {
  }

  /** Selection looks at nothing but the row, the outbox entry and whether the chunk artifact exists. */
  lemma SelectionLocal(cfg: Config, chunking: Digest, force: bool, v: View, w: View, document: SourceDoc)
    requires v.row == w.row && v.op == w.op && v.file.Some? == w.file.Some?
    ensures Choose(cfg, chunking, force, v, document) == Choose(cfg, chunking, force, w, document)
    ensures Selected(cfg, chunking, force, v, document).row == Selected(cfg, chunking, force, w, document).row
    ensures Selected(cfg, chunking, force, v, document).op == Selected(cfg, chunking, force, w, document).op
  {
  }

  /** What selection decides about a document it sees with this row, outbox entry and artifact. */
  ghost predicate SelectedAs(cfg: Config, chunking: Digest, force: bool, seen: View, document: SourceDoc,
                             row: Option<Row>, op: Option<Op>, choice: Choice)
  {
    && choice == Choose(cfg, chunking, force, seen, document)
    && row == Selected(cfg, chunking, force, seen, document).row
    && op == Selected(cfg, chunking, force, seen, document).op
  }

  /** The row, the outbox entry and the choice for one source document. */
  method SelectOne(cfg: Config, prior: Option<Row>, op: Option<Op>, file: Option<seq<Chunk>>,
                   document: SourceDoc, chunking: Digest, force: bool)
    returns (row: Row, op': Option<Op>, choice: Choice)
    ensures SelectedAs(cfg, chunking, force, View(prior, op, None, file, map[]), document, Some(row), op', choice)
    ensures op.Some? ==> op'.Some?
  {
    row, op', choice := Upserted(prior, document), op, SkipIt;
    if force || prior.None? || prior.value.document.content != document.content || prior.value.parse != Ready
       || prior.value.parseFp != Some(Expected(cfg, document.content, prior.value.parser)) {
      return ContentInvalidated(row), Some(Op(Delete, true)), ParseIt;
    }
    if prior.value.document.metadata != document.metadata {
      op' := Some(Op(Payload, true));
    }
    if prior.value.chunk != Ready || file.None?
       || prior.value.chunkFp != Some(ChunkFingerprint(chunking, OrEmpty(prior.value.parseFp))) {
      return ChunksInvalidated(row), Some(Op(Delete, true)), ChunkIt;
    }
    if prior.value.embedding != Ready || prior.value.dense != Ready || prior.value.sparse != Ready
       || prior.value.embeddingFp != Some(EmbeddingFingerprint(cfg, prior.value.chunkFp)) {
      choice := EmbedIt;
    }
  }

  function Seen(rows: map<DocId, Row>, ops: map<DocId, Op>, files: map<DocId, seq<Chunk>>, d: DocId): View {
    View(Get(rows, d), Get(ops, d), None, Get(files, d), map[])
  }

  /** The body of the selection transaction, over copies of the tables. */
  method PlanSelection(cfg: Config, rows: map<DocId, Row>, ops: map<DocId, Op>, files: map<DocId, seq<Chunk>>,
                       documents: Documents, chunking: Digest, force: bool)
    returns (rows': map<DocId, Row>, ops': map<DocId, Op>, choices: map<DocId, Choice>)
    ensures choices.Keys == documents.Keys
    ensures forall d :: d !in documents ==> Get(rows', d) == Get(rows, d) && Get(ops', d) == Get(ops, d)
    ensures forall d :: d in documents ==>
              SelectedAs(cfg, chunking, force, Seen(rows, ops, files, d), documents[d],
                         Get(rows', d), Get(ops', d), choices[d])
  {
    rows', ops', choices := rows, ops, map[];
    var todo := documents.Keys;
    while todo != {}
      invariant forall d :: d in choices <==> d in documents && d !in todo
      invariant forall d :: d !in choices ==> Get(rows', d) == Get(rows, d) && Get(ops', d) == Get(ops, d)
      invariant forall d :: d in choices ==>
                  SelectedAs(cfg, chunking, force, Seen(rows, ops, files, d), documents[d],
                             Get(rows', d), Get(ops', d), choices[d])
      decreases todo
    {
      var d :| d in todo;
      todo := todo - {d};
      var row, op, choice := SelectOne(cfg, Get(rows, d), Get(ops, d), Get(files, d), documents[d], chunking, force);
      rows', ops' := Put(rows', d, Some(row)), Put(ops', d, op);
      choices := choices[d := choice];
    }
  }

  /** Writes an entry if there is one; entries are never removed. */
  function Put<V>(m: map<DocId, V>, d: DocId, v: Option<V>): (m': map<DocId, V>)
    ensures v.Some? || d !in m ==> Get(m', d) == v
    ensures forall e :: e != d ==> Get(m', e) == Get(m, e)
  {
    if v.Some? then m[d := v.value] else m
  }

  /** The body of a batch's source transaction: marks what became unavailable, collects the upserts. */
  method PlanEvents(rows: map<DocId, Row>, ops: map<DocId, Op>, events: seq<Event>)
    returns (rows': map<DocId, Row>, ops': map<DocId, Op>, documents: Documents, unavailable: set<DocId>)
    ensures documents == Upserts(events)
    ensures forall d :: d in unavailable <==> LastGone(d, events).Some?
    ensures forall d :: var v := AfterEvents(View(Get(rows, d), Get(ops, d), None, None, map[]), d, events);
              Get(rows', d) == v.row && Get(ops', d) == v.op
  {
    rows', ops', documents, unavailable := rows, ops, map[], {};
    for i := 0 to |events|
      invariant documents == Upserts(events[..i])
      invariant forall d :: d in unavailable <==> LastGone(d, events[..i]).Some?
      invariant forall d :: var v := AfterEvents(View(Get(rows, d), Get(ops, d), None, None, map[]), d, events[..i]);
                  Get(rows', d) == v.row && Get(ops', d) == v.op
    {
      var e := events[i];
      assert events[..i + 1][..i] == events[..i];
      if Gone(e) {
        if e.id in rows' {
          rows' := rows'[e.id := MarkedUnavailable(rows'[e.id], if e.deletes then Deleted else Unavailable)];
        }
        ops', unavailable := ops'[e.id := Op(Delete, true)], unavailable + {e.id};
      } else {
        documents := documents[e.id := e.document.value];
      }
    }
    assert events[..|events|] == events;
  }

  /** The body of the pruning transaction: every ready row outside the snapshot becomes deleted. */
  method PlanPrune(rows: map<DocId, Row>, ops: map<DocId, Op>, documents: Documents)
    returns (rows': map<DocId, Row>, ops': map<DocId, Op>, stale: set<DocId>)
    ensures stale == set d | d in rows && rows[d].source == SourceReady && d !in documents
    ensures forall d :: Get(rows', d) == if d in stale then Some(MarkedUnavailable(rows[d], Deleted)) else Get(rows, d)
    ensures forall d :: Get(ops', d) == if d in stale then Some(Op(Delete, true)) else Get(ops, d)
  {
    rows', ops' := rows, ops;
    stale := set d | d in rows && rows[d].source == SourceReady && d !in documents;
    var todo := stale;
    while todo != {}
      invariant todo <= stale
      invariant forall d :: Get(rows', d) == if d in stale && d !in todo then Some(MarkedUnavailable(rows[d], Deleted))
                                             else Get(rows, d)
      invariant forall d :: Get(ops', d) == if d in stale && d !in todo then Some(Op(Delete, true)) else Get(ops, d)
      decreases todo
    {
      var d :| d in todo;
      todo := todo - {d};
      rows', ops' := rows'[d := MarkedUnavailable(rows[d], Deleted)], ops'[d := Op(Delete, true)];
    }
  }

  /** The body of the transaction that records parse results. */
  method PlanRecords(cfg: Config, rows: map<DocId, Row>, ops: map<DocId, Op>, documents: Documents,
                     toParse: set<DocId>, succeeded: set<DocId>, chunking: Digest)
    returns (rows': map<DocId, Row>, ops': map<DocId, Op>)
    requires succeeded <= toParse <= documents.Keys && toParse <= rows.Keys
    ensures forall d :: d !in toParse ==> Get(rows', d) == Get(rows, d) && Get(ops', d) == Get(ops, d)
    ensures forall d :: d in toParse ==>
              if d in succeeded then
                Get(rows', d) == Some(ParsedRow(cfg, rows[d], documents[d].content, chunking))
                && Get(ops', d) == Some(Op(Replace, true))
              else Get(rows', d) == Some(ParseFailedRow(rows[d])) && Get(ops', d) == Get(ops, d)
  {
    rows', ops' := rows, ops;
    var todo := toParse;
    while todo != {}
      invariant todo <= toParse
      invariant forall d :: d !in toParse || d in todo ==> Get(rows', d) == Get(rows, d) && Get(ops', d) == Get(ops, d)
      invariant forall d :: d in toParse && d !in todo ==>
                  if d in succeeded then
                    Get(rows', d) == Some(ParsedRow(cfg, rows[d], documents[d].content, chunking))
                    && Get(ops', d) == Some(Op(Replace, true))
                  else Get(rows', d) == Some(ParseFailedRow(rows[d])) && Get(ops', d) == Get(ops, d)
      decreases todo
    {
      var d :| d in todo;
      todo := todo - {d};
      if d in succeeded {
        rows' := rows'[d := ParsedRow(cfg, rows[d], documents[d].content, chunking)];
        ops' := ops'[d := Op(Replace, true)];
      } else {
        rows' := rows'[d := ParseFailedRow(rows[d])];
      }
    }
  }

  ghost predicate Artifacts(cfg: Config, v: View, document: SourceDoc, chunking: Digest) {
    var fp := Produced(cfg, document.content);
    v.parsed == Some(fp) && v.file == Some(ChunksFor(cfg, document.id, ChunkFingerprint(chunking, fp)))
  }

  /** Selected for parsing. */
  ghost predicate Awaiting(v: View, document: SourceDoc) {
    && v.row.Some? && v.row.value.document == document && v.row.value.source == SourceReady
    && v.row.value.parse == Waiting && PendingDelete(v.op)
  }

  /** Chunked at the current fingerprints and not yet indexed. */
  ghost predicate Chunked(cfg: Config, v: View, document: SourceDoc, chunking: Digest) {
    v.row.Some? && ChunkedOk(cfg, v.row.value, document, chunking) && !IndexReady(v.row.value) && v.file.Some?
  }

  /** Parsed, with its chunks to be rebuilt. */
  ghost predicate Rechunkable(cfg: Config, v: View, document: SourceDoc) {
    v.row.Some? && ParsedOk(cfg, v.row.value, document) && v.row.value.chunk == Waiting && PendingDelete(v.op)
  }

  /** What selection promises about a document of each choice. */
  ghost predicate Chosen(cfg: Config, choice: Choice, v: View, document: SourceDoc, chunking: Digest) {
    match choice
    case ParseIt => Awaiting(v, document)
    case ChunkIt => Rechunkable(cfg, v, document)
    case EmbedIt => Chunked(cfg, v, document, chunking)
    case SkipIt => v.row == Some(ReadyRow(cfg, document, chunking))
  }

  /** What recording its parse result does to a document. */
  function ParseRecorded(cfg: Config, v: View, document: SourceDoc, chunking: Digest, ok: bool): View
    requires v.row.Some?
  {
    if ok then v.(row := Some(ParsedRow(cfg, v.row.value, document.content, chunking)), op := Some(Op(Replace, true)))
    else v.(row := Some(ParseFailedRow(v.row.value)))
  }

  /** What rebuilding the chunks of a parse does to a document, or the failure to do so. */
  function Rechunked(cfg: Config, d: DocId, v: View, chunkFp: Digest): View
    requires v.row.Some?
  {
    v.(row := Some(v.row.value.(chunk := Ready, chunkFp := Some(chunkFp))), op := Some(Op(Replace, true)),
       file := Some(ChunksFor(cfg, d, chunkFp)))
  }

  function RechunkFailed(v: View, file: Option<seq<Chunk>>): View
    requires v.row.Some?
  {
    v.(row := Some(v.row.value.(chunk := Failed, chunkFp := None)), file := file)
  }

  /** The row fields that no stage before embedding writes. */
  predicate SameIndexFields(a: Row, b: Row) {
    && a.document == b.document && a.source == b.source && a.embedding == b.embedding
    && a.embeddingFp == b.embeddingFp && a.dense == b.dense && a.sparse == b.sparse
  }

  /** A recorded parse leaves parse and chunks ready at the fingerprints of the content and a pending replacement,
      a recorded failure the parse failed without fingerprint; files, points and the rest of the row stay. */
  lemma ParseRecordedExactly(cfg: Config, v: View, document: SourceDoc, chunking: Digest, ok: bool)
    requires v.row.Some?
    ensures var v' := ParseRecorded(cfg, v, document, chunking, ok);
            && v'.row.Some? && v'.parsed == v.parsed && v'.file == v.file && v'.points == v.points
            && SameIndexFields(v'.row.value, v.row.value)
            && (ok ==>
                  var r := v'.row.value;
                  && r.parse == Ready && r.parseFp == Some(Produced(cfg, document.content))
                  && r.parser == Some(ProducedBy(cfg, document.content)) && r.chunk == Ready
                  && r.chunkFp == Some(ChunkFingerprint(chunking, r.parseFp.value))
                  && v'.op.Some? && v'.op.value.kind == Replace && v'.op.value.pending)
            && (!ok ==>
                  var r := v'.row.value;
                  && r.parse == Failed && r.parseFp == None && r.parser == v.row.value.parser
                  && r.chunk == v.row.value.chunk && r.chunkFp == v.row.value.chunkFp && v'.op == v.op)
  {
  }

  /** Rebuilt chunks are those of the fingerprint, ready and with a pending replacement; a failure leaves the chunks
      failed without fingerprint; the parse and the rest of the row stay. */
  lemma RechunkedExactly(cfg: Config, d: DocId, v: View, chunkFp: Digest, file: Option<seq<Chunk>>)
    requires v.row.Some?
    ensures var v', r' := Rechunked(cfg, d, v, chunkFp), RechunkFailed(v, file);
            && v'.row.Some? && r'.row.Some?
            && v'.parsed == r'.parsed == v.parsed && v'.points == r'.points == v.points
            && SameIndexFields(v'.row.value, v.row.value) && SameIndexFields(r'.row.value, v.row.value)
            && v'.row.value.parse == r'.row.value.parse == v.row.value.parse
            && v'.row.value.parseFp == r'.row.value.parseFp == v.row.value.parseFp
            && v'.row.value.parser == r'.row.value.parser == v.row.value.parser
            && v'.row.value.chunk == Ready && v'.row.value.chunkFp == Some(chunkFp)
            && v'.file == Some(ChunksFor(cfg, d, chunkFp))
            && v'.op.Some? && v'.op.value.kind == Replace && v'.op.value.pending
            && r'.row.value.chunk == Failed && r'.row.value.chunkFp == None && r'.file == file && r'.op == v.op
  {
  }

  /** What the selection transaction has done to a document. */
  ghost predicate SelectedFrom(cfg: Config, chunking: Digest, force: bool, v0: View, v: View, document: SourceDoc,
                               choice: Choice)
  {
    && choice == Choose(cfg, chunking, force, v0, document)
    && v == Selected(cfg, chunking, force, v0, document)
    && Chosen(cfg, choice, v, document, chunking)
  }

  /** Any document with these row, outbox entry and files after selection agrees and is as chosen. */
  lemma SelectionFits(cfg: Config, chunking: Digest, force: bool, v: View, w: View, document: SourceDoc, choice: Choice)
    requires DocOk(cfg, document.id, v)
    requires SelectedAs(cfg, chunking, force, View(v.row, v.op, None, v.file, map[]), document, w.row, w.op, choice)
    requires w.parsed == v.parsed && w.file == v.file && w.points == v.points
    ensures SelectedFrom(cfg, chunking, force, v, w, document, choice) && DocOk(cfg, document.id, w)
  {
    SelectionLocal(cfg, chunking, force, v, View(v.row, v.op, None, v.file, map[]), document);
    SelectionKeeps(cfg, chunking, force, v, document);
  }

  /** A row that is ready at its source. */
  predicate Active(v: View) {
    v.row.Some? && v.row.value.source == SourceReady
  }

  predicate Embeddable(v: View) {
    Active(v) && v.row.value.chunk == Ready
  }

  /** Marked as indexed, with the points of its chunks. */
  ghost predicate Indexed(cfg: Config, d: DocId, v: View) {
    && v.row.Some? && IndexReady(v.row.value)
    && v.row.value.chunkFp.Some? && v.points == PointsFor(cfg, d, v.row.value.chunkFp.value)
  }

  class PipelineOrchestrator {
    const cfg: Config
    const index: QdrantIndex
    const batchSize: nat
    /** Set while nothing fails: an assumption about the environment. */
    var calm: bool
    var rows: map<DocId, Row>
    var ops: map<DocId, Op>
    var parsed: map<DocId, Digest>
    var files: map<DocId, seq<Chunk>>
    var consumed: nat

    constructor (cfg: Config, index: QdrantIndex, batchSize: nat)
      requires batchSize > 0 && index.upsertBatchSize > 0 && index.points == map[]
      ensures Valid() && this.cfg == cfg && this.index == index && rows == map[] && consumed == 0
    {
      this.cfg, this.index, this.batchSize, calm := cfg, index, batchSize, false;
      rows, ops, parsed, files, consumed := map[], map[], map[], map[], 0;
    }

    function ViewOf(d: DocId): View
      reads this`rows, this`ops, this`parsed, this`files, index
    {
      View(Get(rows, d), Get(ops, d), Get(parsed, d), Get(files, d), DocPoints(index.points, d))
    }

    /** Index agreement of every document. */
    ghost predicate Valid()
      reads this`rows, this`ops, this`parsed, this`files, index
    {
      && batchSize > 0 && index.upsertBatchSize > 0 && Owned(index.points)
      && forall d {:trigger DocOk(cfg, d, ViewOf(d))} :: DocOk(cfg, d, ViewOf(d))
    }

    /** Index agreement of every document but one. */
    ghost predicate ValidBut(torn: DocId)
      reads this`rows, this`ops, this`parsed, this`files, index
    {
      && batchSize > 0 && index.upsertBatchSize > 0 && Owned(index.points)
      && forall d {:trigger DocOk(cfg, d, ViewOf(d))} :: d != torn ==> DocOk(cfg, d, ViewOf(d))
    }

    /** Changing one document keeps the agreement of the others. */
    twostate lemma ReagreeBut(torn: DocId)
      requires old(Valid()) && Owned(index.points)
      requires forall e :: e != torn ==> ViewOf(e) == old(ViewOf(e))
      ensures ValidBut(torn)
    {
      forall d | d != torn ensures DocOk(cfg, d, ViewOf(d)) {
        assert DocOk(cfg, d, old(ViewOf(d)));
      }
    }

    /** Changing the documents `ds` keeps the agreement if they themselves agree afterwards. */
    twostate lemma Reagree(ds: set<DocId>)
      requires old(Valid()) && Owned(index.points)
      requires forall e :: e !in ds ==> ViewOf(e) == old(ViewOf(e))
      requires forall d :: d in ds ==> DocOk(cfg, d, ViewOf(d))
      ensures Valid()
    {
      forall d ensures DocOk(cfg, d, ViewOf(d)) {
        if d !in ds { assert DocOk(cfg, d, old(ViewOf(d))); }
      }
    }

    twostate lemma Agreed(d: DocId)
      requires old(Valid())
      ensures DocOk(cfg, d, old(ViewOf(d)))
    {
    }

    /** The selection transaction: upserts every document, invalidates what changed, sorts out the candidates. */
    method SelectDocuments(documents: Documents, chunking: Digest, force: bool)
      returns (alive: bool, choices: map<DocId, Choice>)
      requires Valid() && HonestDocuments(documents)
      modifies this`rows, this`ops
      ensures Valid() && choices.Keys == documents.Keys && (calm ==> alive)
      ensures !alive ==> forall d :: ViewOf(d) == old(ViewOf(d))
      ensures alive ==> forall d :: d !in documents ==> ViewOf(d) == old(ViewOf(d))
      ensures alive ==> forall d :: d in documents ==>
                SelectedFrom(cfg, chunking, force, old(ViewOf(d)), ViewOf(d), documents[d], choices[d])
      ensures alive ==> forall d :: d in documents ==> Chosen(cfg, choices[d], ViewOf(d), documents[d], chunking)
    {
      hide SelectedAs, SelectedFrom, Chosen, DocOk;
      var rows', ops';
      rows', ops', choices := PlanSelection(cfg, rows, ops, files, documents, chunking, force);
      var dies := Fault(calm);
      alive := !dies;
      if dies { return; }
      label commit:
      rows, ops := rows', ops';
      forall d | d in documents
        ensures SelectedFrom(cfg, chunking, force, old@commit(ViewOf(d)), ViewOf(d), documents[d], choices[d])
        ensures DocOk(cfg, d, ViewOf(d)) && Chosen(cfg, choices[d], ViewOf(d), documents[d], chunking)
      {
        Agreed@commit(d);
        assert SelectedAs(cfg, chunking, force, Seen(old@commit(rows), old@commit(ops), files, d), documents[d],
                          ViewOf(d).row, ViewOf(d).op, choices[d]);
        SelectionFits(cfg, chunking, force, old@commit(ViewOf(d)), ViewOf(d), documents[d], choices[d]);
      }
      Reagree@commit(documents.Keys);
    }

    /** One parse worker's run over one document: writes the parse and chunk artifacts, then reports. */
    method ParseOne(d: DocId, document: SourceDoc, chunking: Digest) returns (ok: bool)
      requires Valid() && d in rows && rows[d].parse != Ready && document.id == d
      modifies this`parsed, this`files
      ensures Valid()
      ensures forall e :: e != d ==> ViewOf(e) == old(ViewOf(e))
      ensures ok ==> Artifacts(cfg, ViewOf(d), document, chunking) && !cfg.unreadable(document.content)
      ensures calm ==> (ok <==> !cfg.unreadable(document.content))
    {
      assert DocOk(cfg, d, ViewOf(d));
      ok := false;
      var fp := Produced(cfg, document.content);
      var fails := Fault(calm);
      if fails || cfg.unreadable(document.content) { return; }
      label step:
      parsed := parsed[d := fp];
      Reagree@step({d});
      fails := Fault(calm);
      if fails { return; }
      files := files[d := ChunksFor(cfg, d, ChunkFingerprint(chunking, fp))];
      Reagree@step({d});
      fails := Fault(calm);
      ok := !fails;
    }

    /** Parse results: what was reported as parsed can be read, and in calm all that can be read is parsed. */
    ghost predicate Parsing(documents: Documents, done: set<DocId>, succeeded: set<DocId>)
      reads this`calm
    {
      && (forall d :: d in succeeded ==> d in done && d in documents && !cfg.unreadable(documents[d].content))
      && (calm ==> forall d :: d in done && d in documents && d !in succeeded ==>
            cfg.unreadable(documents[d].content))
    }

    /** The parse workers over all documents to parse; any of them may fail. */
    method RunParsers(documents: Documents, toParse: set<DocId>, chunking: Digest)
      returns (alive: bool, succeeded: set<DocId>)
      requires Valid() && toParse <= documents.Keys && HonestDocuments(documents)
      requires forall d :: d in toParse ==> d in rows && rows[d].parse != Ready
      modifies this`parsed, this`files
      ensures Valid() && (calm ==> alive) && Parsing(documents, toParse, succeeded)
      ensures forall d :: d !in toParse ==> ViewOf(d) == old(ViewOf(d))
      ensures forall d :: d in succeeded ==> Artifacts(cfg, ViewOf(d), documents[d], chunking)
    {
      hide Artifacts, DocOk;
      succeeded := {};
      var todo := toParse;
      while todo != {}
        invariant todo <= toParse && Valid() && Parsing(documents, toParse - todo, succeeded)
        invariant forall d :: d !in toParse ==> ViewOf(d) == old(ViewOf(d))
        invariant forall d :: d in succeeded ==> Artifacts(cfg, ViewOf(d), documents[d], chunking)
        decreases todo
      {
        var d :| d in todo;
        todo := todo - {d};
        label step:
        var ok := ParseOne(d, documents[d], chunking);
        assert forall e :: e != d ==> ViewOf(e) == old@step(ViewOf(e));
        if ok { succeeded := succeeded + {d}; }
      }
      var dies := Fault(calm);
      alive := !dies;
    }

    /** The transaction that records the parse results. */
    method RecordParses(documents: Documents, toParse: set<DocId>, succeeded: set<DocId>, chunking: Digest)
      returns (alive: bool)
      requires Valid() && toParse <= documents.Keys && HonestDocuments(documents)
      requires Parsing(documents, toParse, succeeded)
      requires forall d :: d in toParse ==> Awaiting(ViewOf(d), documents[d])
      requires forall d :: d in succeeded ==> Artifacts(cfg, ViewOf(d), documents[d], chunking)
      modifies this`rows, this`ops
      ensures Valid() && (calm ==> alive)
      ensures forall d :: d !in toParse ==> ViewOf(d) == old(ViewOf(d))
      ensures !alive ==> forall d :: ViewOf(d) == old(ViewOf(d))
      ensures alive ==> forall d | d in toParse ::
                old(ViewOf(d)).row.Some?
                && ViewOf(d) == ParseRecorded(cfg, old(ViewOf(d)), documents[d], chunking, d in succeeded)
      ensures alive ==> forall d :: d in succeeded ==> Chunked(cfg, ViewOf(d), documents[d], chunking)
    {
      var rows', ops' := PlanRecords(cfg, rows, ops, documents, toParse, succeeded, chunking);
      var dies := Fault(calm);
      alive := !dies;
      if dies { return; }
      label commit:
      rows, ops := rows', ops';
      forall d | d in toParse
        ensures old@commit(ViewOf(d)).row.Some?
        ensures ViewOf(d) == ParseRecorded(cfg, old@commit(ViewOf(d)), documents[d], chunking, d in succeeded)
        ensures DocOk(cfg, d, ViewOf(d)) && (d in succeeded ==> Chunked(cfg, ViewOf(d), documents[d], chunking))
      {
        assert DocOk(cfg, d, old@commit(ViewOf(d)));
      }
      Reagree@commit(toParse);
    }

    /** A failed document: its row says so and its points are to be deleted. */
    ghost predicate Dropped(v: View, document: SourceDoc) {
      MarkedFailed(v, document) && PendingDelete(v.op) && !Embeddable(v)
    }

    /** The parse stage: the workers, then the transaction that records their results. */
    method ParseDocuments(documents: Documents, toParse: set<DocId>, chunking: Digest)
      returns (alive: bool, succeeded: set<DocId>)
      requires Valid() && toParse <= documents.Keys && HonestDocuments(documents)
      requires forall d :: d in toParse ==> Awaiting(ViewOf(d), documents[d])
      modifies this`rows, this`ops, this`parsed, this`files
      ensures Valid() && (calm ==> alive) && Parsing(documents, toParse, succeeded)
      ensures forall d :: d !in toParse ==> ViewOf(d) == old(ViewOf(d))
      ensures alive ==> forall d :: d in succeeded ==> Chunked(cfg, ViewOf(d), documents[d], chunking)
      ensures alive ==> forall d :: d in toParse && d !in succeeded ==> Dropped(ViewOf(d), documents[d])
    {
      alive, succeeded := RunParsers(documents, toParse, chunking);
      if !alive { return; }
      label parsed:
      alive := RecordParses(documents, toParse, succeeded, chunking);
      forall d | alive && d in toParse && d !in succeeded ensures Dropped(ViewOf(d), documents[d]) {
        assert DocOk(cfg, d, ViewOf(d));
      }
    }

    /** Writes the chunk artifact of a document's parse, if nothing fails. */
    method WriteChunks(d: DocId, chunking: Digest) returns (fp: Option<Digest>)
      requires Valid() && d in rows && rows[d].chunk != Ready
      modifies this`files
      ensures Valid() && (calm && d in parsed ==> fp.Some?)
      ensures fp.None? ==> forall e :: ViewOf(e) == old(ViewOf(e))
      ensures fp.Some? ==> d in parsed && fp.value == ChunkFingerprint(chunking, parsed[d])
      ensures fp.Some? ==> forall e :: e != d ==> ViewOf(e) == old(ViewOf(e))
      ensures fp.Some? ==> ViewOf(d) == old(ViewOf(d)).(file := Some(ChunksFor(cfg, d, fp.value)))
    {
      assert DocOk(cfg, d, ViewOf(d));
      fp := None;
      var fails := Fault(calm);
      if fails || d !in parsed { return; }
      fp := Some(ChunkFingerprint(chunking, parsed[d]));
      files := files[d := ChunksFor(cfg, d, fp.value)];
      Reagree({d});
    }

    /** Records the rebuilt chunks, or the failure. */
    method RecordChunks(d: DocId, fp: Option<Digest>) returns (alive: bool)
      requires Valid() && d in rows && rows[d].parse == Ready && rows[d].chunk != Ready
      requires fp.Some? ==> d in files && files[d] == ChunksFor(cfg, d, fp.value)
      modifies this`rows, this`ops
      ensures Valid() && (calm ==> alive)
      ensures forall e :: e != d ==> ViewOf(e) == old(ViewOf(e))
      ensures !alive ==> ViewOf(d) == old(ViewOf(d))
      ensures alive ==> ViewOf(d) == if fp.Some? then Rechunked(cfg, d, old(ViewOf(d)), fp.value)
                                     else RechunkFailed(old(ViewOf(d)), old(ViewOf(d)).file)
    {
      assert DocOk(cfg, d, ViewOf(d));
      var dies := Fault(calm);
      alive := !dies;
      if dies { return; }
      if fp.Some? {
        rows := rows[d := rows[d].(chunk := Ready, chunkFp := fp)];
        ops := ops[d := Op(Replace, true)];
      } else {
        rows := rows[d := rows[d].(chunk := Failed, chunkFp := None)];
      }
      Reagree({d});
    }

    /** Rebuilds one document's chunks from its parse artifact. A failure, even one after the artifact was
        written, is recorded, and the run goes on. */
    method RechunkOne(d: DocId, document: SourceDoc, chunking: Digest) returns (alive: bool, ok: bool)
      requires Valid() && Rechunkable(cfg, ViewOf(d), document) && document.id == d
      modifies this`rows, this`ops, this`files
      ensures Valid() && (calm ==> alive && ok)
      ensures forall e :: e != d ==> ViewOf(e) == old(ViewOf(e))
      ensures alive && !ok ==> Dropped(ViewOf(d), document)
      ensures alive && ok ==> Chunked(cfg, ViewOf(d), document, chunking)
      ensures alive && ok ==> old(ViewOf(d)).parsed.Some?
      ensures alive && ok ==>
                ViewOf(d) == Rechunked(cfg, d, old(ViewOf(d)), ChunkFingerprint(chunking, old(ViewOf(d)).parsed.value))
      ensures alive && !ok ==> ViewOf(d) == RechunkFailed(old(ViewOf(d)), ViewOf(d).file)
    {
      assert DocOk(cfg, d, ViewOf(d));
      var fp := WriteChunks(d, chunking);
      var fails := Fault(calm);
      if fails { fp := None; }
      ok := fp.Some?;
      alive := RecordChunks(d, fp);
    }

    /** A document to rechunk is done, waits for its turn, or has failed. */
    ghost predicate RechunkTurn(document: SourceDoc, waits: bool, done: bool, chunking: Digest, v: View)
      reads this`calm
    {
      && (waits ==> Rechunkable(cfg, v, document))
      && (done ==> !waits && Chunked(cfg, v, document, chunking))
      && (!waits && !done ==> Dropped(v, document) && !calm)
    }

    method RechunkNext(d: DocId, document: SourceDoc, chunking: Digest) returns (alive: bool, ok: bool)
      requires Valid() && Rechunkable(cfg, ViewOf(d), document) && document.id == d
      modifies this`rows, this`ops, this`files
      ensures Valid() && (calm ==> alive)
      ensures forall e :: e != d ==> ViewOf(e) == old(ViewOf(e))
      ensures alive ==> RechunkTurn(document, false, ok, chunking, ViewOf(d))
    {
      alive, ok := RechunkOne(d, document, chunking);
    }

    method Rechunk(documents: Documents, toChunk: set<DocId>, chunking: Digest)
      returns (alive: bool, done: set<DocId>)
      requires Valid() && toChunk <= documents.Keys && HonestDocuments(documents)
      requires forall d :: d in toChunk ==> Rechunkable(cfg, ViewOf(d), documents[d])
      modifies this`rows, this`ops, this`files
      ensures Valid() && done <= toChunk && (calm ==> alive && done == toChunk)
      ensures forall d :: d !in toChunk ==> ViewOf(d) == old(ViewOf(d))
      ensures alive ==> forall d :: d in done ==> Chunked(cfg, ViewOf(d), documents[d], chunking)
      ensures alive ==> forall d :: d in toChunk && d !in done ==> Dropped(ViewOf(d), documents[d])
    {
      hide Rechunkable, Chunked, Dropped, DocOk;
      done := {};
      var todo := toChunk;
      while todo != {}
        invariant Valid() && todo <= toChunk
        invariant forall d :: d !in toChunk ==> ViewOf(d) == old(ViewOf(d))
        invariant done <= toChunk
        invariant forall d :: d in toChunk ==> RechunkTurn(documents[d], d in todo, d in done, chunking, ViewOf(d))
        decreases todo
      {
        var d :| d in todo;
        todo := todo - {d};
        var ok;
        assert RechunkTurn(documents[d], true, false, chunking, ViewOf(d));
        alive, ok := RechunkNext(d, documents[d], chunking);
        if !alive { return; }
        if ok { done := done + {d}; }
      }
      alive := true;
    }

    /** Embeds a document's chunk artifact and replaces its points. A failed batch or slice ends the run, and
        leaves a document that is already marked as indexed without the points it claims. */
    method ReplacePoints(d: DocId) returns (alive: bool)
      requires Valid() && d in rows && d in files && rows[d].chunk == Ready
      modifies index
      ensures (alive || !IndexReady(rows[d]) ==> Valid()) && ValidBut(d) && (calm ==> alive)
      ensures forall e :: e != d ==> ViewOf(e) == old(ViewOf(e))
      ensures rows[d].chunkFp.Some?
      ensures alive ==> ViewOf(d) == old(ViewOf(d)).(points := PointsFor(cfg, d, rows[d].chunkFp.value))
    {
      assert DocOk(cfg, d, ViewOf(d));
      var chunks := files[d];
      var dense := EmbedBatches(chunks, cfg.embed, batchSize, calm);
      ReagreeBut(d);
      if dense.None? { return false; }
      var sparse := SparseOf(chunks, cfg.encode);
      ghost var before := index.points;
      ghost var list := PointList(chunks, dense.value, sparse);
      var cut := Cutoff(calm);
      alive := index.ReplaceDocument(d, chunks, dense.value, sparse, cut);
      if alive {
        ReplaceIsLocal(before, d, list);
      } else if cut.value > 0 {
        assert PartlyReplaced(before, index.points, d, list) by {
          assert Stored(|chunks|, index.upsertBatchSize, cut.value - 1) <= |list|;
        }
        PartialReplaceIsLocal(before, index.points, d, list);
      }
      ReagreeBut(d);
      if alive || !IndexReady(rows[d]) { Reagree({d}); }
    }

    /** The transaction that records a document as embedded and indexed and completes its outbox entry. */
    method RecordIndexed(d: DocId) returns (alive: bool)
      requires Valid() && d in rows && rows[d].chunk == Ready
      requires rows[d].chunkFp.Some? && ViewOf(d).points == PointsFor(cfg, d, rows[d].chunkFp.value)
      modifies this`rows, this`ops
      ensures Valid() && rows.Keys == old(rows.Keys) && ops.Keys == old(ops.Keys) && (calm ==> alive)
      ensures forall e :: e != d ==> ViewOf(e) == old(ViewOf(e))
      ensures alive ==> IndexedFrom(cfg, d, old(ViewOf(d)), ViewOf(d))
    {
      assert DocOk(cfg, d, ViewOf(d));
      var dies := Fault(calm);
      alive := !dies;
      if dies { return; }
      rows := rows[d := IndexedRow(cfg, rows[d])];
      if d in ops { ops := ops[d := ops[d].(pending := false)]; }
      Reagree({d});
    }

    /** Embeds one document's chunk artifact and replaces its points, then records it as indexed. */
    method IndexOne(d: DocId) returns (alive: bool, ok: bool)
      requires Valid() && d in rows
      modifies this`rows, this`ops, index
      ensures (alive || !IndexReady(old(rows)[d]) ==> Valid()) && (Valid() || ValidBut(d))
      ensures rows.Keys == old(rows.Keys) && ops.Keys == old(ops.Keys) && (calm ==> alive)
      ensures forall e :: e != d ==> ViewOf(e) == old(ViewOf(e))
      ensures alive ==> Embedded(d, old(ViewOf(d)), ViewOf(d))
      ensures alive ==> (ok <==> !Missing(old(ViewOf(d))))
    {
      if rows[d].chunk != Ready { return true, true; }
      if d !in files { return true, false; }
      ok := true;
      alive := ReplacePoints(d);
      if alive { alive := RecordIndexed(d); }
    }

    /** Its chunks are ready but their artifact is gone. */
    ghost predicate Missing(v: View) {
      v.row.Some? && v.row.value.chunk == Ready && v.file.None?
    }

    /** A candidate with ready chunks and their artifact is embedded and indexed, any other left alone. */
    ghost predicate Embedded(d: DocId, v0: View, v: View) {
      if v0.row.Some? && v0.row.value.chunk == Ready && v0.file.Some? then IndexedFrom(cfg, d, v0, v) else v == v0
    }

    /** Embeds and indexes the candidates one after the other; a missing artifact is an error of its own. At
        most one document, one that was marked as indexed before, can be left without the points it claims. */
    method EmbedAndIndex(candidates: set<DocId>) returns (alive: bool, missing: set<DocId>)
      requires Valid()
      modifies this`rows, this`ops, index
      ensures Valid() || exists d :: d in candidates && d in old(rows) && IndexReady(old(rows)[d]) && ValidBut(d)
      ensures alive ==> Valid()
      ensures rows.Keys == old(rows.Keys) && (calm ==> alive)
      ensures forall d :: d !in candidates ==> ViewOf(d) == old(ViewOf(d))
      ensures alive ==> forall d :: d in candidates ==> Embedded(d, old(ViewOf(d)), ViewOf(d))
      ensures alive ==> forall d :: d in missing <==> d in candidates && Missing(old(ViewOf(d)))
    {
      missing, alive := {}, true;
      var todo := candidates;
      while todo != {}
        invariant todo <= candidates && Valid() && rows.Keys == old(rows.Keys) && alive
        invariant forall d :: d !in candidates || d in todo ==> ViewOf(d) == old(ViewOf(d))
        invariant forall d :: d in candidates && d !in todo ==> Embedded(d, old(ViewOf(d)), ViewOf(d))
        invariant forall d :: d in missing <==> d in candidates && d !in todo && Missing(old(ViewOf(d)))
        decreases todo
      {
        var d :| d in todo;
        assert ViewOf(d) == old(ViewOf(d));
        todo := todo - {d};
        if d in rows {
          var ok;
          assert old(rows)[d] == rows[d] by { assert ViewOf(d).row == old(ViewOf(d)).row; }
          alive, ok := IndexOne(d);
          if !alive { return; }
          if !ok { missing := missing + {d}; }
        }
      }
    }

    /** What applying the outbox does to one document: deletions and payload updates are carried out and
        completed, replacements stay as they are. */
    ghost predicate Applied(v0: View, v: View) {
      var op := if v0.op.Some? && v0.op.value.kind != Replace then Completed(v0.op) else v0.op;
      v == View(v0.row, op, v0.parsed, v0.file, Settled(v0))
    }

    method ApplyOne(d: DocId) returns (alive: bool)
      requires Valid() && d in ops
      modifies this`ops, index
      ensures Valid() && ops.Keys == old(ops.Keys) && (calm ==> alive)
      ensures forall e :: e != d ==> ViewOf(e) == old(ViewOf(e))
      ensures Bystander(old(ViewOf(d)), ViewOf(d))
      ensures alive ==> Applied(old(ViewOf(d)), ViewOf(d))
    {
      assert DocOk(cfg, d, ViewOf(d));
      label step:
      if !ops[d].pending || ops[d].kind == Replace { return true; }
      var dies := Fault(calm);
      alive := !dies;
      if dies { return; }
      if ops[d].kind == Delete {
        DeleteIsLocal(index.points, d);
        index.DeleteDocument(d);
        Reagree@step({d});
      }
      dies := Fault(calm);
      alive := !dies;
      if dies { return; }
      ops := ops[d := ops[d].(pending := false)];
      Reagree@step({d});
    }

    /** One turn over the outbox. */
    twostate predicate Applying(todo: set<DocId>)
      reads this, index
    {
      forall d :: if d in todo then ViewOf(d) == old(ViewOf(d)) else Applied(old(ViewOf(d)), ViewOf(d))
    }

    twostate lemma ApplyingIsBystander(todo: set<DocId>)
      requires Applying(todo)
      ensures forall d :: Bystander(old(ViewOf(d)), ViewOf(d))
    {
    }

    /** Applies the pending deletions and payload updates of the outbox; replacements stay pending. */
    method ApplyIndexOperations() returns (alive: bool)
      requires Valid()
      modifies this`ops, index
      ensures Valid() && (calm ==> alive)
      ensures forall d :: Bystander(old(ViewOf(d)), ViewOf(d))
      ensures alive ==> forall d :: Applied(old(ViewOf(d)), ViewOf(d))
    {
      var todo := ops.Keys;
      while todo != {}
        invariant todo <= ops.Keys && Valid() && Applying(todo)
        decreases todo
      {
        var d :| d in todo;
        assert ViewOf(d) == old(ViewOf(d));
        ApplyingIsBystander(todo);
        todo := todo - {d};
        alive := ApplyOne(d);
        if !alive { return; }
      }
      ApplyingIsBystander(todo);
      alive := true;
    }

    /** A document after selection, by what it needs. */
    ghost predicate Sorted(document: SourceDoc, parse: bool, chunk: bool, embed: bool, chunking: Digest, v: View) {
      && (parse ==> !chunk && !embed && Awaiting(v, document))
      && (chunk ==> !embed && Rechunkable(cfg, v, document))
      && (embed ==> Chunked(cfg, v, document, chunking))
      && (!parse && !chunk && !embed ==> v.row == Some(ReadyRow(cfg, document, chunking)))
    }

    /** Selection, with the documents sorted by what they need. */
    method SelectCandidates(documents: Documents, chunking: Digest, force: bool)
      returns (alive: bool, toParse: set<DocId>, toChunk: set<DocId>, toEmbed: set<DocId>)
      requires Valid() && HonestDocuments(documents)
      modifies this`rows, this`ops
      ensures Valid() && (calm ==> alive)
      ensures forall d :: d in toParse || d in toChunk || d in toEmbed ==> d in documents
      ensures forall d :: d !in documents ==> ViewOf(d) == old(ViewOf(d))
      ensures alive ==> forall d :: d in documents ==>
                Sorted(documents[d], d in toParse, d in toChunk, d in toEmbed, chunking, ViewOf(d))
    {
      hide Awaiting, Rechunkable, Chunked, ReadyRow, SelectedFrom, DocOk;
      var choices;
      alive, choices := SelectDocuments(documents, chunking, force);
      toParse := set d | d in choices && choices[d] == ParseIt;
      toChunk := set d | d in choices && choices[d] == ChunkIt;
      toEmbed := set d | d in choices && choices[d] == EmbedIt;
      forall d | alive && d in documents
        ensures Sorted(documents[d], d in toParse, d in toChunk, d in toEmbed, chunking, ViewOf(d))
      {
        assert Chosen(cfg, choices[d], ViewOf(d), documents[d], chunking);
      }
    }

    /** A document of the run before embedding: to be embedded, failed, or ready already. */
    ghost predicate Prepared(documents: Documents, failed: set<DocId>, candidates: set<DocId>, chunking: Digest,
                             d: DocId, v: View)
      requires d in documents
    {
      if d in candidates then d !in failed && Chunked(cfg, v, documents[d], chunking)
      else if d in failed then Dropped(v, documents[d])
      else v.row == Some(ReadyRow(cfg, documents[d], chunking))
    }

    lemma PreparedParsed(documents: Documents, failed: set<DocId>, candidates: set<DocId>, chunking: Digest,
                         d: DocId, v: View)
      requires d in documents && Prepared(documents, failed, candidates, chunking, d, v) && DocOk(cfg, d, v)
      ensures ParsedView(cfg, documents[d], d in failed, chunking, v)
      ensures d !in failed ==> !cfg.unreadable(documents[d].content)
    {
    }

    /** The stages before embedding: selection, parsing and rechunking. */
    method PrepareDocuments(documents: Documents, chunking: Digest, force: bool)
      returns (alive: bool, failed: set<DocId>, candidates: set<DocId>)
      requires Valid() && HonestDocuments(documents)
      modifies this`rows, this`ops, this`parsed, this`files
      ensures Valid() && (calm ==> alive) && candidates <= documents.Keys && failed <= documents.Keys
      ensures forall d :: d !in documents ==> ViewOf(d) == old(ViewOf(d))
      ensures alive ==> forall d :: d in documents ==>
                Prepared(documents, failed, candidates, chunking, d, ViewOf(d))
      ensures calm ==> forall d :: d in failed ==> cfg.unreadable(documents[d].content)
    {
      failed, candidates := {}, {};
      var toParse, toChunk, toEmbed, succeeded, rechunked;
      alive, toParse, toChunk, toEmbed := SelectCandidates(documents, chunking, force);
      if !alive { return; }
      label selected:
      forall d | d in documents
        ensures Sorted(documents[d], d in toParse, d in toChunk, d in toEmbed, chunking, ViewOf(d)) {}
      alive, succeeded := ParseDocuments(documents, toParse, chunking);
      if !alive { return; }
      label parsed:
      forall d | d in documents && d !in toParse ensures ViewOf(d) == old@selected(ViewOf(d)) {}
      alive, rechunked := Rechunk(documents, toChunk, chunking);
      if !alive { return; }
      failed, candidates := (toParse - succeeded) + (toChunk - rechunked), toEmbed + succeeded + rechunked;
      forall d | d in documents ensures Prepared(documents, failed, candidates, chunking, d, ViewOf(d)) {
        if d !in toChunk { assert ViewOf(d) == old@parsed(ViewOf(d)); }
      }
    }

    /** From its state before embedding to the end of a run. */
    lemma StagesEnd(documents: Documents, failed: set<DocId>, candidates: set<DocId>, chunking: Digest, d: DocId,
                    v1: View, v2: View, v3: View)
      requires candidates <= documents.Keys && failed <= documents.Keys
      requires d in documents ==> Prepared(documents, failed, candidates, chunking, d, v1)
      requires if d in candidates then Embedded(d, v1, v2) else v2 == v1
      requires Applied(v2, v3) && DocOk(cfg, d, v3)
      ensures EndedView(cfg, documents, failed, chunking, d, v1, v3)
    {
    }

    /** The stages up to embedding, for runs that embed: whatever was prepared is embedded, nothing is missing. */
    method EmbedPrepared(documents: Documents, failed: set<DocId>, candidates: set<DocId>, chunking: Digest)
      returns (alive: bool)
      requires Valid() && candidates <= documents.Keys && failed <= documents.Keys
      requires forall d :: d in documents ==> Prepared(documents, failed, candidates, chunking, d, ViewOf(d))
      modifies this`rows, this`ops, index
      ensures Valid() && (calm ==> alive)
      ensures forall d :: d !in documents ==> Bystander(old(ViewOf(d)), ViewOf(d))
      ensures alive ==> forall d :: EndedView(cfg, documents, failed, chunking, d, old(ViewOf(d)), ViewOf(d))
    {
      forall d | d in candidates ensures d in rows ==> !IndexReady(rows[d]) {
        assert Prepared(documents, failed, candidates, chunking, d, ViewOf(d));
      }
      var missing;
      alive, missing := EmbedAndIndex(candidates);
      if !alive { return; }
      forall d ensures d !in missing {
        assert d in candidates ==> Prepared(documents, failed, candidates, chunking, d, old(ViewOf(d)));
      }
      assert missing == {};
      label embedded:
      alive := ApplyIndexOperations();
      forall d | d !in documents ensures Bystander(old(ViewOf(d)), ViewOf(d)) {
        assert old@embedded(ViewOf(d)) == old(ViewOf(d));
      }
      forall d | alive ensures EndedView(cfg, documents, failed, chunking, d, old(ViewOf(d)), ViewOf(d)) {
        StagesEnd(documents, failed, candidates, chunking, d, old(ViewOf(d)), old@embedded(ViewOf(d)), ViewOf(d));
      }
    }

    /** Documents that did not fail have the same chunk fingerprint exactly if they have the same content. */
    ghost predicate ChunkedApart(documents: Documents, failed: set<DocId>)
      reads this`rows
    {
      forall d, e :: d in documents && e in documents && d !in failed && e !in failed ==>
        && d in rows && e in rows
        && (rows[d].chunkFp == rows[e].chunkFp <==> documents[d].content == documents[e].content)
    }

    lemma ParsedApart(documents: Documents, failed: set<DocId>, chunking: Digest)
      requires forall d :: d in documents ==> ParsedView(cfg, documents[d], d in failed, chunking, ViewOf(d))
      ensures ChunkedApart(documents, failed)
    {
      forall d, e | d in documents && e in documents && d !in failed && e !in failed
        ensures d in rows && e in rows
        ensures rows[d].chunkFp == rows[e].chunkFp <==> documents[d].content == documents[e].content
      {
        assert ParsedView(cfg, documents[d], d in failed, chunking, ViewOf(d));
        assert ParsedView(cfg, documents[e], e in failed, chunking, ViewOf(e));
        ChunksOfContent(cfg, chunking, documents[d].content, chunking, documents[e].content);
      }
    }

    /** Takes source documents through every stage. Without documents nothing happens at all, not even
        pending deletions are applied. `failed` are the documents in the run's errors. */
    method ProcessDocuments(documents: Documents, chunking: Digest, force: bool, parseOnly: bool)
      returns (alive: bool, failed: set<DocId>)
      requires Valid() && HonestDocuments(documents)
      modifies this`rows, this`ops, this`parsed, this`files, index
      ensures Valid() && (calm ==> alive)
      ensures forall d :: d !in documents ==> Bystander(old(ViewOf(d)), ViewOf(d))
      ensures documents == map[] ==> alive && failed == {} && forall d :: ViewOf(d) == old(ViewOf(d))
      ensures alive ==> forall d :: d in documents ==> ParsedView(cfg, documents[d], d in failed, chunking, ViewOf(d))
      ensures alive ==> failed <= documents.Keys
      ensures alive && documents != map[] && !parseOnly ==>
                forall d :: EndedView(cfg, documents, failed, chunking, d, old(ViewOf(d)), ViewOf(d))
      ensures alive && documents != map[] && !parseOnly ==>
                forall d :: d in documents && d !in failed ==> FreshView(cfg, d, documents[d], ViewOf(d))
      ensures alive ==> ChunkedApart(documents, failed)
      ensures calm ==> forall d :: d in failed <==> d in documents && cfg.unreadable(documents[d].content)
      ensures parseOnly ==> index.points == old(index.points)
    {
      if documents == map[] { return true, {}; }
      var candidates;
      alive, failed, candidates := PrepareDocuments(documents, chunking, force);
      if !alive { return; }
      label prepared:
      hide EndedView, ParsedView, Bystander, Prepared, FreshView, ChunkedApart;
      forall d | d in documents
        ensures d !in failed ==> !cfg.unreadable(documents[d].content)
        ensures ParsedView(cfg, documents[d], d in failed, chunking, ViewOf(d))
      {
        PreparedParsed(documents, failed, candidates, chunking, d, ViewOf(d));
      }
      ParsedApart(documents, failed, chunking);
      if parseOnly { return; }
      alive := EmbedPrepared(documents, failed, candidates, chunking);
      forall d | d !in documents ensures Bystander(old(ViewOf(d)), ViewOf(d)) {
        assert old@prepared(ViewOf(d)) == old(ViewOf(d));
      }
      forall d | alive
        ensures EndedView(cfg, documents, failed, chunking, d, old(ViewOf(d)), ViewOf(d))
        ensures d in documents ==> ParsedView(cfg, documents[d], d in failed, chunking, ViewOf(d))
      {
        EndedParsed(cfg, documents, failed, chunking, d, old(ViewOf(d)), old@prepared(ViewOf(d)), ViewOf(d));
      }
      if alive { ParsedApart(documents, failed, chunking); }
      forall d | alive && d in documents && d !in failed ensures FreshView(cfg, d, documents[d], ViewOf(d)) {
        EndedFresh(cfg, documents, failed, chunking, d, old(ViewOf(d)), ViewOf(d));
      }
    }

    /** Only documents that no parser reads are marked failed. */
    ghost predicate OnlyUnreadableFailed()
      reads this`rows
    {
      forall d :: Excused(cfg, Get(rows, d))
    }

    /** The source transaction of one delta batch. */
    method ApplyDeltaSource(events: seq<Event>) returns (alive: bool, documents: Documents, unavailable: set<DocId>)
      requires Valid()
      modifies this`rows, this`ops
      ensures Valid() && documents == Upserts(events) && (calm ==> alive)
      ensures forall d :: d in unavailable <==> LastGone(d, events).Some?
      ensures !alive ==> forall d :: ViewOf(d) == old(ViewOf(d))
      ensures alive ==> forall d :: ViewOf(d) == AfterEvents(old(ViewOf(d)), d, events)
    {
      var rows', ops';
      rows', ops', documents, unavailable := PlanEvents(rows, ops, events);
      var dies := Fault(calm);
      alive := !dies;
      if dies { return; }
      label commit:
      rows, ops := rows', ops';
      forall d ensures ViewOf(d) == AfterEvents(old@commit(ViewOf(d)), d, events) && DocOk(cfg, d, ViewOf(d)) {
        assert DocOk(cfg, d, old@commit(ViewOf(d)));
      }
    }

    /** One batch of an incremental run, up to but not including the consumed mark. */
    method IngestBatch(events: seq<Event>, chunking: Digest, parseOnly: bool) returns (alive: bool, failed: set<DocId>)
      requires Valid() && HonestEvents(events)
      modifies this`rows, this`ops, this`parsed, this`files, index
      ensures Valid() && (calm ==> alive)
      ensures forall d :: d !in Upserts(events) ==>
                Bystander(old(ViewOf(d)), ViewOf(d)) || Bystander(AfterEvents(old(ViewOf(d)), d, events), ViewOf(d))
      ensures events == [] ==> failed == {} && forall d :: ViewOf(d) == old(ViewOf(d))
      ensures alive && events != [] && !parseOnly ==> forall d ::
                EndedView(cfg, Upserts(events), failed, chunking, d, AfterEvents(old(ViewOf(d)), d, events), ViewOf(d))
      ensures calm ==> forall d :: d in failed <==> d in Upserts(events) && cfg.unreadable(Upserts(events)[d].content)
      ensures calm && old(OnlyUnreadableFailed()) ==> OnlyUnreadableFailed()
      ensures parseOnly ==> index.points == old(index.points)
    {
      hide EndedView, ParsedView, Bystander, Applied, Excused, DocOk;
      var documents, unavailable;
      UpsertsHonest(events);
      EventsMention(events);
      failed := {};
      alive, documents, unavailable := ApplyDeltaSource(events);
      forall d ensures Bystander(ViewOf(d), ViewOf(d)) { BystanderThrough(ViewOf(d), ViewOf(d), ViewOf(d)); }
      if !alive { return; }
      label applied:
      alive, failed := ProcessDocuments(documents, chunking, false, parseOnly);
      if !alive { return; }
      forall d | calm && old(OnlyUnreadableFailed()) ensures Excused(cfg, ViewOf(d).row) {
        assert Excused(cfg, Get(old(rows), d));
        assert old(ViewOf(d)).row == Get(old(rows), d);
        ExcusedStays(cfg, events, failed, chunking, d, old(ViewOf(d)), ViewOf(d));
      }
      label processed:
      if unavailable != {} && !parseOnly {
        alive := ApplyIndexOperations();
        forall d
          ensures d !in documents ==> Bystander(old@applied(ViewOf(d)), ViewOf(d))
          ensures ViewOf(d).row == old@processed(ViewOf(d)).row
        {
          BystanderThrough(if d in documents then old@processed(ViewOf(d)) else old@applied(ViewOf(d)),
                           old@processed(ViewOf(d)), ViewOf(d));
        }
        forall d | alive
          ensures EndedView(cfg, documents, failed, chunking, d, old@applied(ViewOf(d)), ViewOf(d))
        {
          AppliedEnds(documents, failed, chunking, d, old@applied(ViewOf(d)), old@processed(ViewOf(d)), ViewOf(d));
        }
      }
      forall d | calm && old(OnlyUnreadableFailed()) ensures Excused(cfg, Get(rows, d)) {
        assert Excused(cfg, old@processed(ViewOf(d)).row) && ViewOf(d).row == Get(rows, d);
      }
    }

    /** Applying the outbox after a run changes nothing for its documents, and ends one that had no documents. */
    lemma AppliedEnds(documents: Documents, failed: set<DocId>, chunking: Digest, d: DocId,
                      v0: View, v1: View, v2: View)
      requires if documents == map[] then v1 == v0 && failed == {}
               else EndedView(cfg, documents, failed, chunking, d, v0, v1)
      requires Applied(v1, v2)
      ensures EndedView(cfg, documents, failed, chunking, d, v0, v2)
    {
    }

    /** One batch and its consumed mark. The mark is made even when documents of the batch failed: a document
        of a consumed batch follows the log if and only if it is not among the failed. */
    method ConsumeBatch(log: seq<seq<Event>>, chunking: Digest, parseOnly: bool)
      returns (alive: bool, failed: set<DocId>)
      requires Valid() && consumed < |log| && HonestEvents(log[consumed])
      modifies this`rows, this`ops, this`parsed, this`files, this`consumed, index
      ensures Valid() && consumed == old(consumed) + (if alive then 1 else 0) && (calm ==> alive)
      ensures !parseOnly ==> forall d :: Tracks(cfg, chunking, log, old(consumed), d, old(ViewOf(d))) ==>
                Tracks(cfg, chunking, log, consumed, d, ViewOf(d))
      ensures alive && !parseOnly ==> forall d :: Tracks(cfg, chunking, log, old(consumed), d, old(ViewOf(d))) ==>
                FollowsOrFailed(cfg, chunking, Live(d, log[..consumed]), ViewOf(d))
      ensures alive && !parseOnly ==> forall d |
                  d in Upserts(log[old(consumed)]) && Tracks(cfg, chunking, log, old(consumed), d, old(ViewOf(d))) ::
                (Follows(cfg, chunking, Live(d, log[..consumed]), ViewOf(d)) <==> d !in failed)
      ensures calm ==> forall d :: d in failed <==>
                d in Upserts(log[old(consumed)]) && cfg.unreadable(Upserts(log[old(consumed)])[d].content)
      ensures calm && old(OnlyUnreadableFailed()) ==> OnlyUnreadableFailed()
      ensures parseOnly ==> index.points == old(index.points)
    {
      var k := consumed;
      alive, failed := IngestBatch(log[k], chunking, parseOnly);
      forall d | Tracks(cfg, chunking, log, k, d, old(ViewOf(d))) ensures Tracks(cfg, chunking, log, k, d, ViewOf(d)) {
        BatchInterrupted(cfg, chunking, log, k, d, old(ViewOf(d)), ViewOf(d));
      }
      if !alive { return; }
      forall d | !parseOnly && Tracks(cfg, chunking, log, k, d, old(ViewOf(d)))
        ensures FollowsOrFailed(cfg, chunking, Live(d, log[..k + 1]), ViewOf(d))
        ensures d in Upserts(log[k]) ==> (Follows(cfg, chunking, Live(d, log[..k + 1]), ViewOf(d)) <==> d !in failed)
      {
        BatchAdvances(cfg, chunking, log, k, failed, d, old(ViewOf(d)), ViewOf(d));
      }
      var dies := Fault(calm);
      alive := !dies;
      if dies { return; }
      consumed := consumed + 1;
    }

    /** One of these batches upserts the document with a content that no parser reads. */
    ghost predicate UnreadableIn(log: seq<seq<Event>>, low: nat, high: nat, d: DocId)
      requires low <= high <= |log|
    {
      exists k :: low <= k < high && UnreadableAt(log[k], d)
    }

    predicate UnreadableAt(events: seq<Event>, d: DocId) {
      d in Upserts(events) && cfg.unreadable(Upserts(events)[d].content)
    }

    lemma UnreadableNext(log: seq<seq<Event>>, low: nat, high: nat, d: DocId)
      requires low <= high < |log|
      ensures UnreadableIn(log, low, high + 1, d) <==> UnreadableIn(log, low, high, d) || UnreadableAt(log[high], d)
    {
    }

    /** Consumes the pending batches in order. `failed` are the documents in the run's errors. */
    method IngestIncremental(log: seq<seq<Event>>, chunking: Digest, parseOnly: bool)
      returns (alive: bool, failed: set<DocId>)
      requires Valid() && consumed <= |log| && forall events :: events in log ==> HonestEvents(events)
      modifies this`rows, this`ops, this`parsed, this`files, this`consumed, index
      ensures Valid() && old(consumed) <= consumed <= |log| && (calm ==> alive)
      ensures alive ==> consumed == |log|
      ensures !parseOnly && (forall d :: Tracks(cfg, chunking, log, old(consumed), d, old(ViewOf(d)))) ==>
                forall d :: Tracks(cfg, chunking, log, consumed, d, ViewOf(d))
      ensures calm && old(OnlyUnreadableFailed()) ==> OnlyUnreadableFailed()
      ensures calm ==> forall d :: d in failed <==> UnreadableIn(log, old(consumed), consumed, d)
      ensures parseOnly ==> index.points == old(index.points)
    {
      alive, failed := true, {};
      while consumed < |log|
        invariant Valid() && old(consumed) <= consumed <= |log|
        invariant !parseOnly && (forall d :: Tracks(cfg, chunking, log, old(consumed), d, old(ViewOf(d)))) ==>
                    forall d :: Tracks(cfg, chunking, log, consumed, d, ViewOf(d))
        invariant parseOnly ==> index.points == old(index.points)
        invariant calm ==> forall d :: d in failed <==> UnreadableIn(log, old(consumed), consumed, d)
        invariant calm && old(OnlyUnreadableFailed()) ==> OnlyUnreadableFailed()
      {
        var more;
        alive, more := ConsumeBatch(log, chunking, parseOnly);
        forall d | calm && alive
          ensures UnreadableIn(log, old(consumed), consumed, d)
                  <==> UnreadableIn(log, old(consumed), consumed - 1, d) || d in more
        {
          UnreadableNext(log, old(consumed), consumed - 1, d);
        }
        failed := failed + more;
        if !alive { return; }
      }
    }

    /** The pruning transaction. */
    method Prune(documents: Documents) returns (alive: bool, stale: set<DocId>)
      requires Valid()
      modifies this`rows, this`ops
      ensures Valid() && (calm ==> alive)
      ensures stale == set d | d in old(rows) && old(rows)[d].source == SourceReady && d !in documents
      ensures alive ==> forall d ::
                ViewOf(d) == if d in stale then UnavailableView(old(ViewOf(d)), Deleted) else old(ViewOf(d))
    {
      var rows', ops';
      rows', ops', stale := PlanPrune(rows, ops, documents);
      var dies := Fault(calm);
      alive := !dies;
      if dies { return; }
      label commit:
      rows, ops := rows', ops';
      forall d | d in stale ensures DocOk(cfg, d, ViewOf(d)) {
        assert DocOk(cfg, d, old@commit(ViewOf(d)));
      }
      Reagree@commit(stale);
    }

    /** What the pruning transaction does to a document. */
    function PrunedView(documents: Documents, d: DocId, v: View): View {
      if Active(v) && d !in documents then UnavailableView(v, Deleted) else v
    }

    /** The state an error-free, pruning run over a whole snapshot leaves a document in. */
    ghost predicate Reconciled(documents: Documents, chunking: Digest, d: DocId, v: View) {
      Follows(cfg, chunking, Get(documents, d), v) && (d !in documents ==> v.points == map[])
    }

    /** The state an error-free run leaves a document in before pruning. */
    ghost predicate Processed(documents: Documents, chunking: Digest, d: DocId, v: View) {
      !PendingDelete(v.op) && (d in documents ==> Follows(cfg, chunking, Some(documents[d]), v))
    }

    lemma PruningReconciles(documents: Documents, chunking: Digest, d: DocId, v0: View, v: View)
      requires DocOk(cfg, d, v0) && Processed(documents, chunking, d, v0)
      requires Applied(PrunedView(documents, d, v0), v) || (v == v0 && (Active(v0) ==> d in documents))
      ensures Reconciled(documents, chunking, d, v)
    {
    }

    lemma EmptySnapshotReconciles(documents: Documents, chunking: Digest, d: DocId, v0: View, v: View)
      requires DocOk(cfg, d, v0) && d !in documents && Applied(PrunedView(documents, d, v0), v)
      ensures Reconciled(documents, chunking, d, v)
    {
    }

    lemma StaleIffActive(rows0: map<DocId, Row>, documents: Documents, stale: set<DocId>)
      requires stale == set d | d in rows0 && rows0[d].source == SourceReady && d !in documents
      ensures documents == map[] ==> (stale != {} <==> exists d :: d in rows0 && rows0[d].source == SourceReady)
    {
      if d :| documents == map[] && d in rows0 && rows0[d].source == SourceReady { assert d in stale; }
    }

    /** Prunes, and applies the outbox if there was anything to prune. */
    method PruneStale(documents: Documents, chunking: Digest, parseOnly: bool) returns (alive: bool)
      requires Valid()
      modifies this`rows, this`ops, index
      ensures Valid() && (calm ==> alive)
      ensures alive ==> forall d :: d !in documents ==> !Active(ViewOf(d))
      ensures alive && !parseOnly && old(forall d :: Processed(documents, chunking, d, ViewOf(d))) ==>
                forall d :: Reconciled(documents, chunking, d, ViewOf(d))
      ensures alive && !parseOnly && documents == map[] ==>
                if old(AnyActive()) then forall d :: Reconciled(documents, chunking, d, ViewOf(d))
                else forall d :: ViewOf(d) == old(ViewOf(d))
      ensures parseOnly ==> index.points == old(index.points)
    {
      var stale;
      alive, stale := Prune(documents);
      if !alive { return; }
      label pruned:
      forall d ensures ViewOf(d) == PrunedView(documents, d, old(ViewOf(d))) && DocOk(cfg, d, old(ViewOf(d))) {}
      forall d ensures d in stale <==> d !in documents && Active(old(ViewOf(d))) {}
      StaleIffActive(old(rows), documents, stale);
      if stale != {} && !parseOnly {
        alive := ApplyIndexOperations();
        if !alive { return; }
        forall d ensures Applied(PrunedView(documents, d, old(ViewOf(d))), ViewOf(d)) {
          assert Applied(old@pruned(ViewOf(d)), ViewOf(d));
        }
        forall d | documents == map[] ensures Reconciled(documents, chunking, d, ViewOf(d)) {
          EmptySnapshotReconciles(documents, chunking, d, old(ViewOf(d)), ViewOf(d));
        }
      }
      forall d | !parseOnly && Processed(documents, chunking, d, old(ViewOf(d)))
        ensures Reconciled(documents, chunking, d, ViewOf(d))
      {
        PruningReconciles(documents, chunking, d, old(ViewOf(d)), ViewOf(d));
      }
    }

    /** A run over the source snapshot. After success on the whole snapshot it prunes if asked to and marks
        every batch of the delta log consumed. */
    method IngestFull(documents: Documents, unfiltered: bool, log: seq<seq<Event>>, chunking: Digest,
                      force: bool, prune: bool, parseOnly: bool)
      returns (alive: bool, failed: set<DocId>)
      requires Valid() && HonestDocuments(documents) && consumed <= |log|
      modifies this`rows, this`ops, this`parsed, this`files, this`consumed, index
      ensures Valid() && (consumed == old(consumed) || consumed == |log|) && (calm ==> alive)
      ensures failed != {} || !unfiltered ==> consumed == old(consumed)
      ensures failed != {} || !unfiltered || !prune ==>
                forall d :: d !in documents ==> Bystander(old(ViewOf(d)), ViewOf(d))
      ensures alive && failed != {} && !parseOnly ==>
                forall d :: EndedView(cfg, documents, failed, chunking, d, old(ViewOf(d)), ViewOf(d))
      ensures alive && failed == {} && unfiltered ==> consumed == |log|
      ensures alive && failed == {} && unfiltered && prune ==> forall d :: d !in documents ==> !Active(ViewOf(d))
      ensures alive && failed == {} && unfiltered && prune && !parseOnly && documents != map[] ==>
                forall d :: Reconciled(documents, chunking, d, ViewOf(d))
      ensures alive && unfiltered && prune && !parseOnly && documents == map[] ==>
                if old(AnyActive()) then forall d :: Reconciled(documents, chunking, d, ViewOf(d))
                else forall d :: ViewOf(d) == old(ViewOf(d))
      ensures calm ==> forall d :: d in failed <==> d in documents && cfg.unreadable(documents[d].content)
      ensures parseOnly ==> index.points == old(index.points)
    {
      hide FreshView, ParsedView, ChunkedApart, Bystander, HonestDocuments;
      alive, failed := ProcessDocuments(documents, chunking, force, parseOnly);
      if documents == map[] { SameRows(); }
      if !alive || failed != {} || !unfiltered { return; }
      forall d | !parseOnly && documents != map[] ensures Processed(documents, chunking, d, ViewOf(d)) {
        assert EndedView(cfg, documents, failed, chunking, d, old(ViewOf(d)), ViewOf(d));
      }
      label processed:
      alive := FinishFull(documents, log, chunking, prune, parseOnly);
    }

    /** The end of a successful run over the whole snapshot: pruning, and the consumed marks. */
    method FinishFull(documents: Documents, log: seq<seq<Event>>, chunking: Digest, prune: bool, parseOnly: bool)
      returns (alive: bool)
      requires Valid() && consumed <= |log|
      modifies this`rows, this`ops, this`consumed, index
      ensures Valid() && (calm ==> alive) && consumed == if alive then |log| else old(consumed)
      ensures !prune ==> forall d :: ViewOf(d) == old(ViewOf(d))
      ensures alive && prune ==> forall d :: d !in documents ==> !Active(ViewOf(d))
      ensures alive && prune && !parseOnly && old(forall d :: Processed(documents, chunking, d, ViewOf(d))) ==>
                forall d :: Reconciled(documents, chunking, d, ViewOf(d))
      ensures alive && prune && !parseOnly && documents == map[] ==>
                if old(AnyActive()) then forall d :: Reconciled(documents, chunking, d, ViewOf(d))
                else forall d :: ViewOf(d) == old(ViewOf(d))
      ensures parseOnly ==> index.points == old(index.points)
    {
      if prune {
        alive := PruneStale(documents, chunking, parseOnly);
        if !alive { return; }
      }
      var dies := Fault(calm);
      alive := !dies;
      if dies { return; }
      consumed := |log|;
    }

    ghost predicate AnyActive()
      reads this`rows
    {
      exists d :: d in rows && rows[d].source == SourceReady
    }

    twostate lemma SameRows()
      requires forall d :: ViewOf(d) == old(ViewOf(d))
      ensures AnyActive() == old(AnyActive())
    {
      forall d ensures (d in rows <==> d in old(rows)) && (d in rows ==> rows[d] == old(rows[d])) {
        assert ViewOf(d).row == old(ViewOf(d)).row;
      }
    }

    method Reconcile(documents: Documents, log: seq<seq<Event>>, chunking: Digest, parseOnly: bool)
      returns (alive: bool, failed: set<DocId>)
      requires Valid() && HonestDocuments(documents) && consumed <= |log|
      modifies this`rows, this`ops, this`parsed, this`files, this`consumed, index
      ensures Valid() && (consumed == old(consumed) || consumed == |log|) && (calm ==> alive)
      ensures alive && failed == {} ==> consumed == |log|
      ensures alive && failed == {} && !parseOnly && documents != map[] ==>
                forall d :: Reconciled(documents, chunking, d, ViewOf(d))
      ensures alive && !parseOnly && documents == map[] ==>
                if old(AnyActive()) then forall d :: Reconciled(documents, chunking, d, ViewOf(d))
                else forall d :: ViewOf(d) == old(ViewOf(d))
      ensures calm ==> forall d :: d in failed <==> d in documents && cfg.unreadable(documents[d].content)
      ensures parseOnly ==> index.points == old(index.points)
    {
      alive, failed := IngestFull(documents, true, log, chunking, false, true, parseOnly);
    }

    /** The documents of the active rows that pass the filter. */
    function ActiveDocuments(filter: set<DocId>): Documents
      reads this`rows
    {
      map d | d in rows && d in filter && rows[d].source == SourceReady :: rows[d].document
    }

    /** Runs the active documents again. What does not fail ends ready and fully derived. */
    method Resume(filter: set<DocId>, chunking: Digest, parseOnly: bool) returns (alive: bool, failed: set<DocId>)
      requires Valid()
      modifies this`rows, this`ops, this`parsed, this`files, index
      ensures Valid() && (calm ==> alive)
      ensures alive && !parseOnly && old(ActiveDocuments(filter)) != map[] ==> forall d ::
                EndedView(cfg, old(ActiveDocuments(filter)), failed, chunking, d, old(ViewOf(d)), ViewOf(d))
      ensures old(ActiveDocuments(filter)) == map[] ==> forall d :: ViewOf(d) == old(ViewOf(d))
      ensures calm ==> forall d :: d in failed <==>
                d in old(ActiveDocuments(filter)) && cfg.unreadable(old(ActiveDocuments(filter))[d].content)
      ensures parseOnly ==> index.points == old(index.points)
    {
      var documents := ActiveDocuments(filter);
      forall d | d in documents ensures documents[d].id == d {
        assert DocOk(cfg, d, ViewOf(d));
      }
      alive, failed := ProcessDocuments(documents, chunking, false, parseOnly);
    }

    method ParsePending(documents: Documents, chunking: Digest, force: bool) returns (alive: bool, failed: set<DocId>)
      requires Valid() && HonestDocuments(documents)
      modifies this`rows, this`ops, this`parsed, this`files, index
      ensures Valid() && (calm ==> alive)
      ensures forall d :: d !in documents ==> Bystander(old(ViewOf(d)), ViewOf(d))
      ensures alive ==> forall d :: d in documents ==> ParsedView(cfg, documents[d], d in failed, chunking, ViewOf(d))
      ensures calm ==> forall d :: d in failed <==> d in documents && cfg.unreadable(documents[d].content)
      ensures index.points == old(index.points)
    {
      alive, failed := ProcessDocuments(documents, chunking, force, true);
    }

    /** The chosen active documents whose chunks are ready, and if not forced, not indexed at the current
        configuration. */
    predicate ToEmbed(filter: set<DocId>, force: bool, d: DocId)
      reads this`rows
    {
      && d in rows && d in filter && rows[d].source == SourceReady && rows[d].chunk == Ready
      && (force || !(rows[d].embedding == Ready && rows[d].dense == Ready && rows[d].sparse == Ready
                     && rows[d].embeddingFp == Some(EmbeddingFingerprint(cfg, rows[d].chunkFp))))
    }

    /** Embeds the active documents whose chunks are ready and, unless forced, not indexed at the current
        configuration. A forced run that is interrupted may leave one document without the points it claims. */
    method EmbedPending(filter: set<DocId>, force: bool) returns (alive: bool, missing: set<DocId>)
      requires Valid()
      modifies this`rows, this`ops, index
      ensures (alive || !force ==> Valid()) && (calm ==> alive)
      ensures Valid() || exists d :: d in filter && d in old(rows) && IndexReady(old(rows)[d]) && ValidBut(d)
      ensures alive ==> forall d | d in filter && d in old(rows) && d !in missing ::
                old(rows)[d].source == SourceReady && old(rows)[d].chunk == Ready ==> Indexed(cfg, d, ViewOf(d))
      ensures forall d :: !old(ToEmbed(filter, force, d)) ==> ViewOf(d) == old(ViewOf(d))
      ensures alive ==> forall d :: d in missing <==> old(ToEmbed(filter, force, d)) && Missing(old(ViewOf(d)))
    {
      var pending := set d | d in rows && ToEmbed(filter, force, d);
      forall d | d in pending ensures force || !IndexReady(rows[d]) {
        assert DocOk(cfg, d, ViewOf(d));
      }
      label chosen:
      alive, missing := EmbedAndIndex(pending);
      forall d | alive && d in filter && d in old(rows) && Embeddable(old(ViewOf(d))) && d !in missing
        ensures Indexed(cfg, d, ViewOf(d))
      {
        assert DocOk(cfg, d, ViewOf(d));
        if d in pending {
          assert Embedded(d, old@chosen(ViewOf(d)), ViewOf(d)) && !Missing(old@chosen(ViewOf(d)));
        } else {
          assert ViewOf(d) == old@chosen(ViewOf(d));
        }
      }
    }

    /** Somebody removes a chunk artifact between two runs. */
    method LoseChunkFile(d: DocId)
      requires Valid()
      modifies this`files
      ensures Valid() && forall e :: ViewOf(e) == if e == d then old(ViewOf(e)).(file := None) else old(ViewOf(e))
    {
      assert DocOk(cfg, d, ViewOf(d));
      files := files - {d};
      Reagree({d});
    }
  }
}
