/** The source side of the delta log: each synchronization compares the documents it knows with the current
    records and publishes one batch. What the pipeline reads from the published log is the published snapshot. */
module DeltaPublisher {
  import opened Hashing
  import opened Orchestrator
  import opened PipelineRows
  import opened PointStore
  import opened Wrappers

  datatype Status =
    | Available
    | MissingArchive
    | UnstableArchive | InvalidArchive | MissingPdf | AmbiguousAttachment | UnsupportedAttachment | MappingUnverified
    | Erroneous
    | Other(name: string)

  const INVALID_STATUSES := {UnstableArchive, InvalidArchive, MissingPdf, AmbiguousAttachment, UnsupportedAttachment,
                             MappingUnverified, Erroneous}

  /** A manifest record. The metadata fingerprint covers the collections. */
  datatype Record = Record(
    id: DocId, status: Status, content: Option<Digest>, archive: Option<Digest>, metadata: Digest, collections: Digest)

  datatype Stored = Stored(record: Record, deleted: bool)

  datatype Reason =
    | BecameAvailable | AttachmentMissing | BecameInvalid | ContentChanged | AttachmentReplaced | CollectionChanged
    | MetadataChanged

  type Store = map<DocId, Stored>
  type Records = map<DocId, Record>

  function ChangeReason(previous: Record, current: Record): Option<Reason> {
    if previous.status != Available && current.status == Available then Some(BecameAvailable)
    else if previous.status == Available && current.status == MissingArchive then Some(AttachmentMissing)
    else if previous.status != current.status && current.status in INVALID_STATUSES then Some(BecameInvalid)
    else if previous.content != current.content then Some(ContentChanged)
    else if previous.archive != current.archive then Some(AttachmentReplaced)
    else if previous.metadata != current.metadata then
      Some(if previous.collections != current.collections then CollectionChanged else MetadataChanged)
    else if previous.status != current.status then Some(BecameInvalid)
    else None
  }

  /** No reason to publish a record means that nothing the pipeline reads has changed, and conversely. */
  lemma NoReasonExactly(previous: Record, current: Record)
    ensures ChangeReason(previous, current) == None
            <==> (previous.status, previous.content, previous.archive, previous.metadata)
                 == (current.status, current.content, current.archive, current.metadata)
  {
  }

  /** Which reason it is: a document that has become available or invalid, or whose archive has gone, is reported as
      that whatever else has changed; with the status unchanged, content outweighs archive and archive metadata. */
  lemma ReasonExactly(previous: Record, current: Record)
    ensures var r := ChangeReason(previous, current);
            && (r == Some(BecameAvailable) <==> previous.status != Available && current.status == Available)
            && (r == Some(AttachmentMissing) <==> previous.status == Available && current.status == MissingArchive)
            && (previous.status != current.status && current.status in INVALID_STATUSES ==> r == Some(BecameInvalid))
            && (r == Some(BecameInvalid) ==> previous.status != current.status && current.status != Available)
            && (previous.status == current.status ==>
                  && (r == Some(ContentChanged) <==> previous.content != current.content)
                  && (r == Some(AttachmentReplaced) <==>
                        previous.content == current.content && previous.archive != current.archive)
                  && (r in {Some(CollectionChanged), Some(MetadataChanged)} <==>
                        (previous.content, previous.archive) == (current.content, current.archive)
                        && previous.metadata != current.metadata)
                  && (r == Some(CollectionChanged) ==> previous.collections != current.collections)
                  && (r == Some(MetadataChanged) ==> previous.collections == current.collections))
  {
  }

  /** A ready record has content; the loader refuses a log with any other. */
  predicate Complete(r: Record) {
    r.status == Available ==> r.content.Some?
  }

  /** What the loader makes of a record. */
  function Document(r: Record): Option<SourceDoc>
    requires Complete(r)
  {
    if r.status == Available then Some(SourceDoc(r.id, r.content.value, r.metadata)) else None
  }

  /** A document is loaded exactly from an available record, with the record's id, content and metadata. */
  ghost predicate Loads(r: Record, document: Option<SourceDoc>) {
    && (document.Some? <==> r.status == Available)
    && (document.Some? ==>
          && document.value.id == r.id && Some(document.value.content) == r.content
          && document.value.metadata == r.metadata)
  }

  lemma DocumentLoads(r: Record)
    requires Complete(r)
    ensures Loads(r, Document(r))
  {
  }

  ghost predicate HonestRecords(current: Records) {
    forall d :: d in current ==> current[d].id == d && Complete(current[d])
  }

  predicate Known(previous: Store, d: DocId) {
    d in previous && !previous[d].deleted
  }

  /** What a batch has to say about a document. */
  function EventFor(previous: Store, current: Records, d: DocId): Option<Event>
    requires HonestRecords(current)
  {
    if d in current then
      if Known(previous, d) && ChangeReason(previous[d].record, current[d]).None? then None
      else Some(Event(d, false, Document(current[d])))
    else if Known(previous, d) then Some(Event(d, true, None))
    else None
  }

  ghost predicate DistinctIds(events: seq<Event>) {
    forall i, j :: 0 <= i < j < |events| ==> events[i].id != events[j].id
  }

  /** The batch says about every document of `ds` what there is to say, once, and nothing else. */
  ghost predicate Reports(previous: Store, current: Records, ds: set<DocId>, events: seq<Event>)
    requires HonestRecords(current)
  {
    && DistinctIds(events)
    && (forall e :: e in events ==> e.id in ds && EventFor(previous, current, e.id) == Some(e))
    && (forall d :: d in ds && EventFor(previous, current, d).Some? ==> EventFor(previous, current, d).value in events)
  }

  lemma ReportsNext(previous: Store, current: Records, ds: set<DocId>, events: seq<Event>, d: DocId)
    requires HonestRecords(current) && Reports(previous, current, ds, events) && d !in ds
    ensures var e := EventFor(previous, current, d);
            Reports(previous, current, ds + {d}, if e.Some? then events + [e.value] else events)
  {
  }

  /** Deletions of the known documents that are gone, then the new and the changed ones, each in an arbitrary
      order; the final sort by document is one such order. */
  method BuildDelta(previous: Store, current: Records) returns (events: seq<Event>)
    requires HonestRecords(current)
    ensures Reports(previous, current, previous.Keys + current.Keys, events)
  {
    events := [];
    var todo := set d | d in previous && !previous[d].deleted && d !in current;
    ghost var silent := set d | d in previous && previous[d].deleted && d !in current;
    ghost var all := previous.Keys + current.Keys;
    forall d | d in silent ensures EventFor(previous, current, d).None? {}
    while todo != {}
      invariant todo <= previous.Keys - silent && todo !! current.Keys
      invariant Reports(previous, current, all - current.Keys - todo, events)
      decreases todo
    {
      var d :| d in todo;
      ReportsNext(previous, current, all - current.Keys - todo, events, d);
      assert all - current.Keys - (todo - {d}) == (all - current.Keys - todo) + {d};
      todo := todo - {d};
      events := events + [Event(d, true, None)];
    }
    todo := current.Keys;
    while todo != {}
      invariant todo <= current.Keys
      invariant Reports(previous, current, all - todo, events)
      decreases todo
    {
      var d :| d in todo;
      ReportsNext(previous, current, all - todo, events, d);
      assert all - (todo - {d}) == (all - todo) + {d};
      todo := todo - {d};
      if !Known(previous, d) || ChangeReason(previous[d].record, current[d]).Some? {
        events := events + [Event(d, false, Document(current[d]))];
      }
    }
    assert all - {} == all;
  }

  /** A batch with one event a document does to it what the event says, in whatever order it is read. */
  lemma {:induction false} OneEventDecides(events: seq<Event>, d: DocId, before: Option<SourceDoc>)
    requires DistinctIds(events)
    ensures !Mentions(d, events) ==> d !in Upserts(events) && LastGone(d, events).None?
    ensures forall e :: e in events && e.id == d ==>
              if Gone(e) then d !in Upserts(events) && LastGone(d, events).Some? && InOrder(d, events, before) == None
              else d in Upserts(events) && Upserts(events)[d] == e.document.value && LastGone(d, events).None?
                   && InOrder(d, events, before) == e.document
    decreases |events|
  {
    BatchInOrder(d, events, before);
    if events != [] {
      var front, last := events[..|events| - 1], events[|events| - 1];
      OneEventDecides(front, d, before);
      BatchInOrder(d, front, before);
      forall e ensures e in events <==> e in front || e == last { assert events == front + [last]; }
      if last.id == d {
        assert !Mentions(d, front);
      }
    }
  }

  /** The event of a document, told by the records: removed ones are deleted; new ones, and ones whose status, content,
      archive or metadata changed, are upserted with what is loaded of them; no other document is mentioned. */
  ghost predicate SaysWhatChanged(previous: Store, current: Records, events: seq<Event>) {
    && DistinctIds(events)
    && (forall e :: e in events ==>
          if e.deletes then e.id !in current && e.id in previous && !previous[e.id].deleted && e.document == None
          else e.id in current && Loads(current[e.id], e.document))
    && (forall d :: d !in current && d in previous && !previous[d].deleted ==> Mentions(d, events))
    && (forall d :: d in current ==>
          (Mentions(d, events) <==>
            !(d in previous && !previous[d].deleted
              && (previous[d].record.status, previous[d].record.content, previous[d].record.archive,
                  previous[d].record.metadata)
                 == (current[d].status, current[d].content, current[d].archive, current[d].metadata))))
  }

  lemma ReportsSay(previous: Store, current: Records, events: seq<Event>)
    requires HonestRecords(current) && Reports(previous, current, previous.Keys + current.Keys, events)
    ensures SaysWhatChanged(previous, current, events)
  {
    forall d | d in current
      ensures Mentions(d, events) <==> EventFor(previous, current, d).Some?
      ensures Known(previous, d) ==>
                (ChangeReason(previous[d].record, current[d]) == None <==>
                  (previous[d].record.status, previous[d].record.content, previous[d].record.archive,
                   previous[d].record.metadata)
                  == (current[d].status, current[d].content, current[d].archive, current[d].metadata))
    {
      if EventFor(previous, current, d).Some? { assert EventFor(previous, current, d).value in events; }
      if Known(previous, d) { NoReasonExactly(previous[d].record, current[d]); }
    }
    forall d | d !in current && d in previous && !previous[d].deleted ensures Mentions(d, events) {
      assert EventFor(previous, current, d).value in events;
    }
    forall e | e in events
      ensures if e.deletes then e.id !in current && e.id in previous && !previous[e.id].deleted && e.document == None
              else e.id in current && Loads(current[e.id], e.document)
    {
      assert EventFor(previous, current, e.id) == Some(e);
      if e.id in current { DocumentLoads(current[e.id]); }
    }
  }

  lemma ReportsHonest(previous: Store, current: Records, events: seq<Event>)
    requires HonestRecords(current) && Reports(previous, current, previous.Keys + current.Keys, events)
    ensures HonestEvents(events)
  {
  }

  /** A published batch takes the state of every document from the old records to the new. */
  lemma BatchPublishes(previous: Store, current: Records, events: seq<Event>, d: DocId, before: Option<SourceDoc>)
    requires HonestRecords(current) && Reports(previous, current, previous.Keys + current.Keys, events)
    requires Known(previous, d) ==> previous[d].record.id == d && Complete(previous[d].record)
    requires before == if Known(previous, d) then Document(previous[d].record) else None
    ensures var after := if d in current then Document(current[d]) else None;
            && InOrder(d, events, before) == after
            && (if d in Upserts(events) then Some(Upserts(events)[d])
                else if LastGone(d, events).Some? then None else before) == after
  {
    OneEventDecides(events, d, before);
    BatchInOrder(d, events, before);
    var e := EventFor(previous, current, d);
    if e.Some? {
      assert e.value in events;
    } else if d in current {
      NoReasonExactly(previous[d].record, current[d]);
    }
  }

  class Publisher {
    var documents: Store
    var log: seq<seq<Event>>

    constructor ()
      ensures Valid() && log == [] && forall d :: Snapshot(d) == None
    {
      documents, log := map[], [];
    }

    ghost predicate Honest()
      reads this`documents
    {
      forall d :: d in documents ==> documents[d].record.id == d && Complete(documents[d].record)
    }

    /** The document as a reader of the published snapshot finds it. */
    function Snapshot(d: DocId): Option<SourceDoc>
      requires Honest()
      reads this`documents
    {
      if Known(documents, d) then Document(documents[d].record) else None
    }

    /** Reading the log as the pipeline does, or in the order of its events, gives the snapshot. */
    ghost predicate Valid()
      reads this
    {
      && Honest()
      && (forall events :: events in log ==> HonestEvents(events))
      && forall d :: Live(d, log) == LiveInOrder(d, log) == Snapshot(d)
    }

    /** One synchronization: the batch, the snapshot and the stored documents change together or not at all. */
    method Publish(current: Records, commits: bool)
      requires Valid() && HonestRecords(current)
      modifies this
      ensures Valid()
      ensures !commits ==> documents == old(documents) && log == old(log)
      ensures commits ==> |log| == |old(log)| + 1 && old(log) <= log
      ensures commits ==> forall d :: d in current ==> d in documents && documents[d] == Stored(current[d], false)
      ensures commits ==> forall d :: d in current ==> Loads(current[d], Snapshot(d))
      ensures commits ==> forall d :: d !in current ==> Snapshot(d) == None && !Known(documents, d)
      ensures commits ==> SaysWhatChanged(old(documents), current, log[|log| - 1])
    {
      hide SaysWhatChanged, Reports, Loads, HonestEvents;
      var events := BuildDelta(documents, current);
      if !commits { return; }
      ghost var log0 := log;
      ReportsHonest(documents, current, events);
      label published:
      documents := map d | d in documents.Keys + current.Keys ::
        if d in current then Stored(current[d], false) else Stored(documents[d].record, true);
      log := log + [events];
      ReportsSay(old(documents), current, events);
      forall d | d in current ensures Loads(current[d], Snapshot(d)) { DocumentLoads(current[d]); }
      forall d ensures Live(d, log) == LiveInOrder(d, log) == Snapshot(d) {
        BatchPublishes(old(documents), current, events, d, old@published(Snapshot(d)));
        assert log[..|log| - 1] == log0;
        assert Live(d, log0) == LiveInOrder(d, log0) == old@published(Snapshot(d));
      }
    }
  }
}
