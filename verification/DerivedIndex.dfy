/** The incremental chunk index: a hash-keyed skip cache over delete-then-upsert, with builds that fail
    document by document or die anywhere. */
module DerivedIndex {
  import opened Hashing
  import opened PointStore
  import opened Wrappers

  datatype IndexInput = IndexInput(
    document: DocId, contentHash: Digest, metadataHash: Digest, processor: string, chunks: seq<Chunk>)

  datatype Row = Row(
    contentHash: Digest, metadataHash: Digest, processor: string, embedding: Digest, active: bool)

  datatype Summary = Summary(
    selected: nat, indexed: nat, skipped: nat, tombstoned: nat, failures: nat)

  /** `Raised`: the exception is caught, recorded as a failure, and the build goes on. `Died`: the process is gone. */
  datatype Outcome = Done | Raised | Died

  method Strike(calm: bool) returns (o: Outcome)
    ensures calm ==> o == Done
  {
    o := *;
    if calm { o := Done; }
  }

  ghost predicate DistinctInputs(values: seq<IndexInput>) {
    forall i, j :: 0 <= i < j < |values| ==> values[i].document != values[j].document
  }

  function Documents(values: seq<IndexInput>): set<DocId> {
    set v | v in values :: v.document
  }

  predicate Recorded(rows: map<DocId, Row>, embedding: Digest, v: IndexInput) {
    v.document in rows && rows[v.document] == Row(v.contentHash, v.metadataHash, v.processor, embedding, true)
  }

  function CountRecorded(rows: map<DocId, Row>, embedding: Digest, values: seq<IndexInput>): nat
    decreases |values|
  {
    if values == [] then 0
    else CountRecorded(rows, embedding, values[..|values| - 1])
         + if Recorded(rows, embedding, values[|values| - 1]) then 1 else 0
  }

  lemma {:induction false} CountRecordedAll(rows: map<DocId, Row>, embedding: Digest, values: seq<IndexInput>)
    ensures CountRecorded(rows, embedding, values) <= |values|
    ensures CountRecorded(rows, embedding, values) == |values|
            <==> forall v :: v in values ==> Recorded(rows, embedding, v)
    decreases |values|
  {
    if values != [] {
      var n := |values| - 1;
      CountRecordedAll(rows, embedding, values[..n]);
      assert values == values[..n] + [values[n]];
    }
  }

  ghost predicate AllRecorded(rows: map<DocId, Row>, embedding: Digest, values: seq<IndexInput>) {
    forall v :: v in values ==> Recorded(rows, embedding, v)
  }

  /** The inputs that are not recorded, in order. */
  function Unrecorded(rows: map<DocId, Row>, embedding: Digest, values: seq<IndexInput>): seq<IndexInput>
    decreases |values|
  {
    if values == [] then []
    else
      var n := |values| - 1;
      var front := Unrecorded(rows, embedding, values[..n]);
      if Recorded(rows, embedding, values[n]) then front else front + [values[n]]
  }

  lemma {:induction false} UnrecordedExactly(rows: map<DocId, Row>, embedding: Digest, values: seq<IndexInput>)
    requires DistinctInputs(values)
    ensures forall v :: v in Unrecorded(rows, embedding, values) <==> v in values && !Recorded(rows, embedding, v)
    ensures DistinctInputs(Unrecorded(rows, embedding, values))
    decreases |values|
  {
    if values != [] {
      var n := |values| - 1;
      assert values == values[..n] + [values[n]];
      UnrecordedExactly(rows, embedding, values[..n]);
      forall v ensures v in values <==> v in values[..n] || v == values[n] {}
      var front := Unrecorded(rows, embedding, values[..n]);
      forall k | 0 <= k < |front| ensures front[k].document != values[n].document {
        assert front[k] in values[..n];
      }
    }
  }

  /** An input is skipped exactly if its document has an active row with its own content, metadata and processor
      under the configured embedding. */
  lemma SkippedExactly(rows: map<DocId, Row>, embedding: Digest, values: seq<IndexInput>, v: IndexInput)
    requires DistinctInputs(values) && v in values
    ensures v !in Unrecorded(rows, embedding, values) <==>
              && v.document in rows && rows[v.document].active && rows[v.document].embedding == embedding
              && rows[v.document].contentHash == v.contentHash && rows[v.document].metadataHash == v.metadataHash
              && rows[v.document].processor == v.processor
  {
    UnrecordedExactly(rows, embedding, values);
  }

  function ActiveRows(rows: map<DocId, Row>): set<DocId> {
    set d | d in rows && rows[d].active
  }

  /** The chunks a row stands for. */
  function RowChunks(chunker: (DocId, Digest, Digest, string) -> seq<Chunk>, d: DocId, r: Row): seq<Chunk> {
    chunker(d, r.contentHash, r.metadataHash, r.processor)
  }

  class IncrementalChunkIndexer {
    const embedding: Digest
    const embed: string -> Dense
    const encode: string -> Sparse
    const chunker: (DocId, Digest, Digest, string) -> seq<Chunk>
    const batchSize: nat
    const index: QdrantIndex
    /** Set while nothing fails: an assumption about the environment. */
    var calm: bool
    var rows: map<DocId, Row>
    var tombstones: set<DocId>
    var artifacts: map<DocId, seq<Chunk>>

    constructor (embedding: Digest, embed: string -> Dense, encode: string -> Sparse,
                 chunker: (DocId, Digest, Digest, string) -> seq<Chunk>, batchSize: nat, index: QdrantIndex)
      requires batchSize > 0 && index.upsertBatchSize > 0 && index.points == map[]
      ensures this.index == index && this.embedding == embedding && this.embed == embed && this.encode == encode
      ensures this.chunker == chunker
      ensures Valid() && rows == map[] && RowsAgree()
    {
      this.embedding, this.embed, this.encode, this.chunker := embedding, embed, encode, chunker;
      this.batchSize, this.index, calm := batchSize, index, false;
      rows, tombstones, artifacts := map[], {}, map[];
    }

    /** Tombstones are exactly the inactive rows. */
    ghost predicate Valid()
      reads this, index
    {
      && batchSize > 0 && index.upsertBatchSize > 0
      && Owned(index.points)
      && tombstones == set d | d in rows && !rows[d].active
    }

    /** The points a document should have. */
    function Derived(v: IndexInput): Points {
      DerivedPoints(v.chunks, embed, encode)
    }

    /** Chunks are a function of the hashes the row records. */
    ghost predicate WellFormed(values: seq<IndexInput>) {
      && DistinctInputs(values)
      && forall v :: v in values ==>
           ChunksOf(v.document, v.chunks)
           && v.chunks == chunker(v.document, v.contentHash, v.metadataHash, v.processor)
    }

    /** Every input that would be skipped has its derived points. */
    ghost predicate Agree(values: seq<IndexInput>)
      reads this, index
    {
      forall v :: v in values && Recorded(rows, embedding, v) ==> DocPoints(index.points, v.document) == Derived(v)
    }

    /** Every active row of the configured embedding has the points its hashes determine, and no document
        without an active row has any. */
    ghost predicate RowsAgree()
      reads this, index
    {
      forall d ::
        if d in rows && rows[d].active then
          rows[d].embedding == embedding ==>
            DocPoints(index.points, d) == DerivedPoints(RowChunks(chunker, d, rows[d]), embed, encode)
        else DocPoints(index.points, d) == map[]
    }

    lemma RowsAgreeWithInputs(values: seq<IndexInput>)
      requires RowsAgree() && WellFormed(values)
      ensures Agree(values)
    {
    }

    /** Only inputs and active rows have points. */
    ghost predicate NoOrphans(values: seq<IndexInput>)
      reads this, index
    {
      forall d :: DocPoints(index.points, d) != map[] ==> d in ActiveRows(rows) || d in Documents(values)
    }

    /** The index holds the derived points of the inputs and nothing else. */
    ghost predicate IndexEquals(values: seq<IndexInput>)
      reads this, index
    {
      && (forall v :: v in values ==> DocPoints(index.points, v.document) == Derived(v))
      && (forall d :: d !in Documents(values) ==> DocPoints(index.points, d) == map[])
    }

    /** Embeds, writes the artifact, replaces the points, records the row. `cut` says after how many of the
        writes to artifact, index and table the run is cut off; an embedding that fails does so before the first. */
    method IndexOne(v: IndexInput, cut: Option<nat>, dies: bool) returns (o: Outcome)
      requires Valid() && ChunksOf(v.document, v.chunks)
      modifies this`rows, this`tombstones, this`artifacts, index
      ensures Valid()
      ensures o in {Done, if dies then Died else Raised} && (cut.None? ==> o == Done)
      ensures o == Done ==>
                rows == old(rows)[v.document := Row(v.contentHash, v.metadataHash, v.processor, embedding, true)]
                && DocPoints(index.points, v.document) == Derived(v) && v.document in artifacts
                && artifacts[v.document] == v.chunks
      ensures o == Done && DistinctIds(v.chunks) ==> EmbedsExactly(index.points, v.document, v.chunks, embed, encode)
      ensures o == Done && cut.Some? ==> cut.value > 2
      ensures o != Done ==> rows == old(rows)
      ensures o != Done && cut.value < 2 ==>
                DocPoints(index.points, v.document) == DocPoints(old(index.points), v.document)
      ensures o != Done && cut.value >= 2 ==>
                DocPoints(index.points, v.document)
                == Derived(v.(chunks := v.chunks[..Stored(|v.chunks|, index.upsertBatchSize, cut.value - 2)]))
      ensures forall d :: d != v.document ==> DocPoints(index.points, d) == DocPoints(old(index.points), d)
    {
      o := if dies then Died else Raised;
      var dense := EmbedBatches(v.chunks, embed, batchSize, cut != Some(0));
      if dense.None? || cut == Some(0) { return; }
      artifacts := artifacts[v.document := v.chunks];
      if cut == Some(1) { return; }
      ghost var before := index.points;
      var ok := index.ReplaceDocument(v.document, v.chunks, dense.value, SparseOf(v.chunks, encode),
                                      if cut.Some? then Some(cut.value - 1) else None);
      Replaced(before, v, ok, if cut.Some? then cut.value - 2 else 0);
      if !ok { return; }
      rows := rows[v.document := Row(v.contentHash, v.metadataHash, v.processor, embedding, true)];
      tombstones := tombstones - {v.document};
      o := Done;
      if DistinctIds(v.chunks) { StoreEmbeds(index.points, v.document, v.chunks, embed, encode); }
    }

    /** What a replacement, whole or cut, has done to the points document by document. */
    lemma Replaced(before: Points, v: IndexInput, ok: bool, slices: nat)
      requires ChunksOf(v.document, v.chunks) && Owned(before)
      requires var list := PointList(v.chunks, DenseOf(v.chunks, embed), SparseOf(v.chunks, encode));
               index.points == Without(before, v.document)
                 + PointMap(if ok then list else list[..Stored(|list|, index.upsertBatchSize, slices)])
      ensures Owned(index.points)
      ensures DocPoints(index.points, v.document) ==
                if ok then Derived(v)
                else Derived(v.(chunks := v.chunks[..Stored(|v.chunks|, index.upsertBatchSize, slices)]))
      ensures forall d :: d != v.document ==> DocPoints(index.points, d) == DocPoints(before, d)
    {
      var list := PointList(v.chunks, DenseOf(v.chunks, embed), SparseOf(v.chunks, encode));
      var k := Stored(|list|, index.upsertBatchSize, slices);
      PrefixPoints(v.chunks, embed, encode, k);
      ReplaceIsLocal(before, v.document, if ok then list else list[..k]);
    }

    /** Deletes a stale document's points and tombstones its row. */
    method RetireOne(d: DocId) returns (o: Outcome)
      requires Valid() && d in rows
      modifies this`rows, this`tombstones, index
      ensures Valid()
      ensures calm ==> o == Done
      ensures o == Done ==> rows == old(rows)[d := old(rows)[d].(active := false)]
                            && DocPoints(index.points, d) == map[]
      ensures o != Done ==> rows == old(rows) && DocPoints(index.points, d) in {DocPoints(old(index.points), d), map[]}
      ensures forall e :: e != d ==> DocPoints(index.points, e) == DocPoints(old(index.points), e)
    {
      o := Strike(calm);
      if o != Done { return o; }
      DeleteIsLocal(index.points, d);
      index.DeleteDocument(d);
      o := Strike(calm);
      if o != Done { return o; }
      rows := rows[d := rows[d].(active := false)];
      tombstones := tombstones + {d};
    }

    /** Splits the inputs into those to skip and those to index. */
    method Plan(values: seq<IndexInput>) returns (planned: seq<IndexInput>, skipped: nat)
      requires DistinctInputs(values)
      ensures skipped == CountRecorded(rows, embedding, values) && skipped + |planned| == |values|
      ensures forall v :: v in planned <==> v in values && !Recorded(rows, embedding, v)
      ensures DistinctInputs(planned)
    {
      planned, skipped := [], 0;
      for i := 0 to |values|
        invariant skipped == CountRecorded(rows, embedding, values[..i]) && skipped + |planned| == i
        invariant planned == Unrecorded(rows, embedding, values[..i])
      {
        assert values[..i + 1][..i] == values[..i];
        if Recorded(rows, embedding, values[i]) {
          skipped := skipped + 1;
        } else {
          planned := planned + [values[i]];
        }
      }
      assert values[..|values|] == values;
      UnrecordedExactly(rows, embedding, values);
    }

    /** Row and points of every document outside `docs` are what they were. */
    ghost predicate Unchanged(rows0: map<DocId, Row>, points0: Points, docs: set<DocId>)
      reads this, index
    {
      forall d :: d !in docs ==>
        && DocPoints(index.points, d) == DocPoints(points0, d)
        && (d in rows <==> d in rows0) && (d in rows ==> rows[d] == rows0[d])
    }

    /** Indexing one input keeps the agreement for all of them. */
    method IndexInto(v: IndexInput, ghost values: seq<IndexInput>) returns (o: Outcome)
      requires Valid() && WellFormed(values) && Agree(values) && v in values
      requires !Recorded(rows, embedding, v)
      modifies this`rows, this`tombstones, this`artifacts, index
      ensures Valid() && Agree(values)
      ensures calm ==> o == Done
      ensures o == Done ==>
                rows == old(rows)[v.document := Row(v.contentHash, v.metadataHash, v.processor, embedding, true)]
      ensures o != Done ==> rows == old(rows)
      ensures Unchanged(old(rows), old(index.points), {v.document})
      ensures ActiveRows(old(rows)) <= ActiveRows(rows)
      ensures forall u: IndexInput :: u.document != v.document ==>
                Recorded(rows, embedding, u) == Recorded(old(rows), embedding, u)
    {
      SameDocumentSameInput(values);
      var cut := Cutoff(calm);
      var dies := *;
      o := IndexOne(v, cut, dies);
    }

    lemma UnchangedAll(rows0: map<DocId, Row>, points0: Points, docs: set<DocId>)
      requires Unchanged(rows0, points0, docs) && docs == {}
      ensures rows == rows0 && index.points == points0
    {
      assert rows.Keys == rows0.Keys;
      SameByDocument(index.points, points0);
    }

    /** One pass over the planned inputs. */
    method IndexPlanned(planned: seq<IndexInput>, ghost values: seq<IndexInput>)
      returns (indexed: nat, failures: nat, died: bool)
      requires Valid() && WellFormed(values) && Agree(values)
      requires DistinctInputs(planned) && forall v :: v in planned ==> v in values && !Recorded(rows, embedding, v)
      modifies this`rows, this`tombstones, this`artifacts, index
      ensures Valid() && Agree(values)
      ensures Unchanged(old(rows), old(index.points), Documents(planned))
      ensures ActiveRows(old(rows)) <= ActiveRows(rows)
      ensures calm ==> !died && failures == 0
      ensures !died ==> indexed + failures == |planned|
      ensures !died && failures == 0 ==> forall v :: v in planned ==> Recorded(rows, embedding, v)
      ensures planned == [] ==> rows == old(rows) && index.points == old(index.points)
    {
      indexed, failures, died := 0, 0, false;
      for i := 0 to |planned|
        invariant Valid() && Agree(values)
        invariant Unchanged(old(rows), old(index.points), Documents(planned))
        invariant ActiveRows(old(rows)) <= ActiveRows(rows)
        invariant indexed + failures == i && (calm ==> failures == 0)
        invariant forall k :: i <= k < |planned| ==> !Recorded(rows, embedding, planned[k])
        invariant failures == 0 ==> forall k :: 0 <= k < i ==> Recorded(rows, embedding, planned[k])
      {
        assert planned[i] in planned && planned[i].document in Documents(planned);
        var o := IndexInto(planned[i], values);
        if o == Died {
          return indexed, failures, true;
        }
        if o == Done { indexed := indexed + 1; } else { failures := failures + 1; }
      }
      if planned == [] { UnchangedAll(old(rows), old(index.points), Documents(planned)); }
    }

    lemma SameDocumentSameInput(values: seq<IndexInput>)
      requires DistinctInputs(values)
      ensures forall u, v :: u in values && v in values && u.document == v.document ==> u == v
    {
    }

    /** One pass over the stale documents. */
    method Prune(stale: set<DocId>) returns (tombstoned: nat, failures: nat, died: bool)
      requires Valid() && stale <= ActiveRows(rows)
      modifies this`rows, this`tombstones, this`artifacts, index
      ensures Valid() && Unchanged(old(rows), old(index.points), stale)
      ensures forall d :: d in stale ==> d in rows && (rows[d].active || DocPoints(index.points, d) == map[])
      ensures calm ==> !died && failures == 0
      ensures !died ==> tombstoned + failures == |stale|
      ensures !died && failures == 0 ==> forall d :: d in stale ==> !rows[d].active
      ensures stale == {} ==> rows == old(rows) && index.points == old(index.points)
    {
      tombstoned, failures, died := 0, 0, false;
      var todo := stale;
      while todo != {}
        invariant todo <= stale && Valid()
        invariant Unchanged(old(rows), old(index.points), stale)
        invariant forall d :: d in stale ==> d in rows && (rows[d].active || DocPoints(index.points, d) == map[])
        invariant tombstoned + failures == |stale| - |todo| && (calm ==> failures == 0)
        invariant failures == 0 ==> forall d :: d in stale && d !in todo ==> !rows[d].active
        invariant stale == {} ==> rows == old(rows) && index.points == old(index.points)
        decreases |todo|
      {
        var d :| d in todo;
        todo := todo - {d};
        var o := RetireOne(d);
        if o == Died { return tombstoned, failures, true; }
        if o == Done { tombstoned := tombstoned + 1; } else { failures := failures + 1; }
      }
    }

    /** After the indexing pass: nothing recorded was lost, and the stale rows are the same. */
    lemma IndexedKeeps(values: seq<IndexInput>, planned: seq<IndexInput>, rows0: map<DocId, Row>, points0: Points)
      requires WellFormed(values) && Unchanged(rows0, points0, Documents(planned))
      requires Documents(planned) <= Documents(values) && ActiveRows(rows0) <= ActiveRows(rows)
      requires forall v :: v in values && v !in planned ==> v.document !in Documents(planned)
      requires forall d :: DocPoints(points0, d) != map[] ==> d in ActiveRows(rows0) || d in Documents(values)
      ensures NoOrphans(values)
      ensures ActiveRows(rows) - Documents(values) == ActiveRows(rows0) - Documents(values)
      ensures forall v :: v in values && v !in planned && Recorded(rows0, embedding, v) ==> Recorded(rows, embedding, v)
    {
    }

    /** After the pruning pass, whether or not it ran to its end. */
    lemma PrunedKeeps(values: seq<IndexInput>, stale: set<DocId>, rows0: map<DocId, Row>, points0: Points)
      requires Unchanged(rows0, points0, stale) && stale !! Documents(values)
      requires forall d :: d in stale ==> d in rows && (rows[d].active || DocPoints(index.points, d) == map[])
      requires forall d :: DocPoints(points0, d) != map[] ==> d in ActiveRows(rows0) || d in Documents(values)
      requires forall v :: v in values && Recorded(rows0, embedding, v) ==> DocPoints(points0, v.document) == Derived(v)
      ensures NoOrphans(values) && Agree(values)
      ensures forall v :: v in values ==> (Recorded(rows, embedding, v) <==> Recorded(rows0, embedding, v))
      ensures (forall d :: d in stale ==> !rows[d].active) ==> ActiveRows(rows) == ActiveRows(rows0) - stale
    {
      forall v | v in values ensures v.document !in stale {}
    }

    lemma PlannedDocuments(values: seq<IndexInput>, planned: seq<IndexInput>)
      requires DistinctInputs(values) && forall v :: v in planned ==> v in values
      ensures Documents(planned) <= Documents(values)
      ensures forall v :: v in values && v !in planned ==> v.document !in Documents(planned)
    {
      SameDocumentSameInput(values);
    }

    lemma CleanBuildIsExact(values: seq<IndexInput>, rows0: map<DocId, Row>)
      requires WellFormed(values) && Agree(values) && NoOrphans(values)
      requires AllRecorded(rows, embedding, values)
      requires ActiveRows(rows) - Documents(values)
            == ActiveRows(rows0) - Documents(values) - (ActiveRows(rows0) - Documents(values))
      ensures ActiveRows(rows) == Documents(values)
      ensures IndexEquals(values) && RowsAgree()
    {
      forall d | d in ActiveRows(rows) ensures d in Documents(values) {
        assert d !in ActiveRows(rows) - Documents(values);
      }
      forall d | d in Documents(values) ensures d in ActiveRows(rows) {
        var v :| v in values && v.document == d;
      }
      forall d ensures d !in Documents(values) ==> DocPoints(index.points, d) == map[] {}
      forall d | d in ActiveRows(rows)
        ensures DocPoints(index.points, d) == DerivedPoints(RowChunks(chunker, d, rows[d]), embed, encode)
      {
        var v :| v in values && v.document == d;
      }
    }

    /** The writing part of a build. */
    method Apply(values: seq<IndexInput>, planned: seq<IndexInput>, stale: set<DocId>)
      returns (indexed: nat, tombstoned: nat, failures: nat, died: bool)
      requires Valid() && WellFormed(values) && Agree(values) && NoOrphans(values)
      requires DistinctInputs(planned)
      requires forall v :: v in planned <==> v in values && !Recorded(rows, embedding, v)
      requires stale <= ActiveRows(rows) && stale !! Documents(values)
      modifies this`rows, this`tombstones, this`artifacts, index
      ensures Valid() && Agree(values) && NoOrphans(values)
      ensures forall v :: v in values && Recorded(old(rows), embedding, v) ==> Recorded(rows, embedding, v)
      ensures calm ==> !died && failures == 0
      ensures !died ==> indexed + tombstoned + failures == |planned| + |stale|
      ensures !died && failures == 0 ==>
                AllRecorded(rows, embedding, values)
                && ActiveRows(rows) - Documents(values) == ActiveRows(old(rows)) - Documents(values) - stale
      ensures planned == [] && stale == {} ==> rows == old(rows) && index.points == old(index.points)
    {
      tombstoned := 0;
      PlannedDocuments(values, planned);
      indexed, failures, died := IndexPlanned(planned, values);
      IndexedKeeps(values, planned, old(rows), old(index.points));
      if died { return; }
      ghost var rows1, points1 := rows, index.points;
      var failed;
      tombstoned, failed, died := Prune(stale);
      PrunedKeeps(values, stale, rows1, points1);
      failures := failures + failed;
    }

    lemma NothingToDo(values: seq<IndexInput>, planned: seq<IndexInput>, stale: set<DocId>)
      requires forall v :: v in planned ==> v in values && !Recorded(rows, embedding, v)
      requires stale <= ActiveRows(rows) - Documents(values)
      ensures AllRecorded(rows, embedding, values) && ActiveRows(rows) <= Documents(values) ==>
                planned == [] && stale == {} && CountRecorded(rows, embedding, values) == |values|
    {
      CountRecordedAll(rows, embedding, values);
      if planned != [] { assert planned[0] in planned; }
    }

    /** Every input has its chunks in the store, each with the vectors of its own texts, and nothing else. */
    ghost predicate AllEmbedded(values: seq<IndexInput>)
      reads this, index
    {
      forall v :: v in values && DistinctIds(v.chunks) ==>
        EmbedsExactly(index.points, v.document, v.chunks, embed, encode)
    }

    lemma RecordedEmbedded(values: seq<IndexInput>)
      requires WellFormed(values) && Agree(values) && AllRecorded(rows, embedding, values)
      ensures AllEmbedded(values)
    {
      forall v | v in values && DistinctIds(v.chunks)
        ensures EmbedsExactly(index.points, v.document, v.chunks, embed, encode)
      {
        StoreEmbeds(index.points, v.document, v.chunks, embed, encode);
      }
    }

    lemma InputsDistinct(values: seq<IndexInput>)
      requires WellFormed(values)
      ensures DistinctInputs(values)
    {
    }

    /** One build. Whatever fails and wherever it dies, what was recorded stays recorded and skipping stays
        safe for these inputs; a completed build accounts for every document; one without failures has
        recorded every input, and with pruning leaves exactly their points. */
    method Build(values: seq<IndexInput>, dryRun: bool, prune: bool) returns (s: Summary, died: bool)
      requires Valid() && WellFormed(values) && Agree(values) && NoOrphans(values)
      modifies this`rows, this`tombstones, this`artifacts, index
      ensures Valid() && Agree(values) && NoOrphans(values)
      ensures calm ==> !died && s.failures == 0
      ensures dryRun ==> !died && rows == old(rows) && index.points == old(index.points)
      ensures forall v :: v in values && Recorded(old(rows), embedding, v) ==> Recorded(rows, embedding, v)
      ensures !died ==>
                var stale := if prune then ActiveRows(old(rows)) - Documents(values) else {};
                && s.selected == |values| && s.skipped == CountRecorded(old(rows), embedding, values)
                && s.skipped + s.indexed + s.tombstoned + s.failures == s.selected + |stale|
      ensures !died && !dryRun && s.failures == 0 ==> AllRecorded(rows, embedding, values)
      ensures !died && !dryRun && s.failures == 0 ==> AllEmbedded(values)
      ensures !died && !dryRun && s.failures == 0 && prune ==>
                ActiveRows(rows) == Documents(values) && IndexEquals(values) && RowsAgree()
      ensures AllRecorded(old(rows), embedding, values)
              && ActiveRows(old(rows)) <= Documents(values) ==>
                rows == old(rows) && index.points == old(index.points)
                && (!died ==> s == Summary(|values|, 0, |values|, 0, 0))
    {
      hide WellFormed, Agree, NoOrphans, RowsAgree, IndexEquals, AllEmbedded, AllRecorded, Recorded, CountRecorded;
      hide DistinctInputs, Documents;
      InputsDistinct(values);
      s := Summary(|values|, 0, 0, 0, 0);
      var planned, skipped := Plan(values);
      s := s.(skipped := skipped);
      var stale := if prune then set d | d in rows && rows[d].active && d !in Documents(values) else {};
      assert stale == if prune then ActiveRows(rows) - Documents(values) else {};
      hide ActiveRows;
      NothingToDo(values, planned, stale);
      if dryRun {
        return s.(indexed := |planned|, tombstoned := |stale|), false;
      }
      var o := Strike(calm);
      if o != Done { return s, true; }
      ghost var rows0 := rows;
      var indexed, tombstoned, failures, gone := Apply(values, planned, stale);
      if gone { return s, true; }
      s := s.(indexed := indexed, tombstoned := tombstoned, failures := failures);
      if s.failures == 0 { RecordedEmbedded(values); }
      if s.failures == 0 && prune {
        CleanBuildIsExact(values, rows0);
      }
      return s, false;
    }

    /** From a state where rows and points agree: any number of failing or dying builds of one set of inputs,
        then a build in which nothing fails, and the index equals the inputs; building again skips everything. */
    method Converge(values: seq<IndexInput>, attempts: nat) returns (again: Summary)
      requires Valid() && WellFormed(values) && RowsAgree()
      modifies this, index
      ensures Valid() && IndexEquals(values) && RowsAgree() && AllEmbedded(values)
      ensures again == Summary(|values|, 0, |values|, 0, 0)
    {
      RowsAgreeWithInputs(values);
      for i := 0 to attempts
        invariant Valid() && Agree(values) && NoOrphans(values)
      {
        calm := *;
        var _, _ := Build(values, false, true);
      }
      calm := true;
      var _, _ := Build(values, false, true);
      var died;
      again, died := Build(values, false, true);
    }
  }

  /** Whoever finds its input recorded in this row may skip it: the points are there. */
  ghost predicate SkipSafe(x: IncrementalChunkIndexer, d: DocId, row: Option<Row>, points: Points) {
    row.Some? && row.value.active && row.value.embedding == x.embedding ==>
      DocPoints(points, d) == DerivedPoints(RowChunks(x.chunker, d, row.value), x.embed, x.encode)
  }

  /** A replacement of a document, cut anywhere before the row is written, keeps skipping safe if and only if
      its row would not be skipped, or there was nothing to lose and there is nothing to store. */
  lemma CutReplacementSafeExactly(x: IncrementalChunkIndexer, d: DocId, row: Option<Row>, points: Points,
                                  chunks: seq<Chunk>)
    requires Owned(points) && ChunksOf(d, chunks) && SkipSafe(x, d, row, points)
    ensures (forall k :: 0 <= k <= |chunks| ==>
               SkipSafe(x, d, row, Without(points, d) + DerivedPoints(chunks[..k], x.embed, x.encode)))
            <==> !(row.Some? && row.value.active && row.value.embedding == x.embedding)
                 || (DocPoints(points, d) == map[] && chunks == [])
  {
    forall k | 0 <= k <= |chunks|
      ensures DocPoints(Without(points, d) + DerivedPoints(chunks[..k], x.embed, x.encode), d)
           == DerivedPoints(chunks[..k], x.embed, x.encode)
      ensures DerivedPoints(chunks[..k], x.embed, x.encode) == map[] <==> k == 0
    {
      var part := chunks[..k];
      var list := PointList(part, DenseOf(part, x.embed), SparseOf(part, x.encode));
      ReplaceIsLocal(points, d, list);
      if k > 0 { assert list[k - 1].0 in PointMap(list); }
    }
    if row.Some? && row.value.active && row.value.embedding == x.embedding && chunks != [] {
      assert chunks[..0] == [] && chunks[..|chunks|] == chunks;
      assert DerivedPoints(chunks[..0], x.embed, x.encode) != DerivedPoints(chunks[..|chunks|], x.embed, x.encode);
    }
    assert chunks[..0] == [];
  }

  /** The failing run: a document is indexed, a build of its next version dies right after deleting the points,
      and the source reverts. The plan then skips the document although none of its points are left. */
  method RevertedInput(x: IncrementalChunkIndexer, v1: IndexInput, v2: IndexInput)
    returns (planned: seq<IndexInput>, skipped: nat)
    requires x.Valid() && x.WellFormed([v1]) && x.WellFormed([v2])
    requires v1.document == v2.document && v1.contentHash != v2.contentHash && v1.chunks != []
    modifies x, x.index
    ensures planned == [] && skipped == 1
    ensures DocPoints(x.index.points, v1.document) == map[] != x.Derived(v1)
  {
    assert v1 in [v1] && v2 in [v2];
    var o := x.IndexOne(v1, None, true);
    o := x.IndexOne(v2, Some(2), true);
    assert v2.chunks[..0] == [];
    planned, skipped := x.Plan([v1]);
    assert [v1][..0] == [];
    ghost var list := PointList(v1.chunks, DenseOf(v1.chunks, x.embed), SparseOf(v1.chunks, x.encode));
    assert list[|list| - 1].0 in PointMap(list);
  }
}
