/** The vector store seen as a map from chunk ids to points, with per-document deletion and replacement. */
module PointStore {
  import opened Hashing
  import opened Wrappers

  datatype DocId = DocId(name: string)
  type Dense = seq<real>
  type Sparse = seq<(nat, real)>

  /** A chunk id hashes its document, its index and a fingerprint of its content. */
  datatype ChunkId = ChunkId(document: DocId, index: nat, fingerprint: Digest)

  datatype Chunk = Chunk(id: ChunkId, document: DocId, index: nat, text: string, sparseText: string)

  datatype Point = Point(document: DocId, index: nat, text: string, dense: Dense, sparse: Sparse)

  type Points = map<ChunkId, Point>

  function Without(points: Points, d: DocId): Points {
    map id | id in points && points[id].document != d :: points[id]
  }

  function DocPoints(points: Points, d: DocId): Points {
    map id | id in points && points[id].document == d :: points[id]
  }

  /** Upserting a list, a later entry of the same id replacing an earlier one. */
  function PointMap(list: seq<(ChunkId, Point)>): Points
    decreases |list|
  {
    if list == [] then map[]
    else PointMap(list[..|list| - 1])[list[|list| - 1].0 := list[|list| - 1].1]
  }

  /** Ids and payloads name the same document, so documents cannot overwrite each other's points. */
  ghost predicate Owned(points: Points) {
    forall id :: id in points ==> points[id].document == id.document
  }

  ghost predicate ChunksOf(d: DocId, chunks: seq<Chunk>) {
    forall i :: 0 <= i < |chunks| ==> chunks[i].document == d && chunks[i].id.document == d
  }

  function PointList(chunks: seq<Chunk>, dense: seq<Dense>, sparse: seq<Sparse>): seq<(ChunkId, Point)>
    requires |chunks| == |dense| == |sparse|
  {
    seq(|chunks|, i requires 0 <= i < |chunks| =>
      (chunks[i].id, Point(chunks[i].document, chunks[i].index, chunks[i].text, dense[i], sparse[i])))
  }

  lemma {:induction false} PointMapAppend(a: seq<(ChunkId, Point)>, b: seq<(ChunkId, Point)>)
    ensures PointMap(a + b) == PointMap(a) + PointMap(b)
    decreases |b|
  {
    if b == [] {
      assert a + b == a;
    } else {
      var n := |b| - 1;
      assert (a + b)[..|a + b| - 1] == a + b[..n];
      PointMapAppend(a, b[..n]);
    }
  }

  lemma {:induction false} PointMapOf(d: DocId, list: seq<(ChunkId, Point)>)
    requires forall i :: 0 <= i < |list| ==> list[i].0.document == d && list[i].1.document == d
    ensures forall id :: id in PointMap(list) ==> id.document == d && PointMap(list)[id].document == d
    decreases |list|
  {
    if list != [] {
      PointMapOf(d, list[..|list| - 1]);
    }
  }

  lemma OthersKept(points: Points, d: DocId, own: Points)
    requires forall id :: id in own ==> id.document == d && own[id].document == d
    requires Owned(points)
    ensures forall e :: e != d ==> DocPoints(Without(points, d) + own, e) == DocPoints(points, e)
    ensures Owned(Without(points, d) + own)
  {
    forall e | e != d ensures DocPoints(Without(points, d) + own, e) == DocPoints(points, e) {
      assert forall id :: id in points && points[id].document == e ==> id !in own;
    }
  }

  /** Replacing one document's points by a list of its own leaves every other document's points alone. */
  lemma ReplaceIsLocal(points: Points, d: DocId, list: seq<(ChunkId, Point)>)
    requires Owned(points)
    requires forall i :: 0 <= i < |list| ==> list[i].0.document == d && list[i].1.document == d
    ensures var after := Without(points, d) + PointMap(list);
            && Owned(after)
            && DocPoints(after, d) == PointMap(list)
            && forall e :: e != d ==> DocPoints(after, e) == DocPoints(points, e)
  {
    PointMapOf(d, list);
    OthersKept(points, d, PointMap(list));
  }

  lemma DeleteIsLocal(points: Points, d: DocId)
    ensures DocPoints(Without(points, d), d) == map[]
    ensures forall e :: e != d ==> DocPoints(Without(points, d), e) == DocPoints(points, e)
    ensures Owned(points) ==> Owned(Without(points, d))
  {
  }

  /** Two stores with the same points for every document are the same store. */
  lemma SameByDocument(a: Points, b: Points)
    requires forall d :: DocPoints(a, d) == DocPoints(b, d)
    ensures a == b
  {
    forall id | id in a ensures id in b && b[id] == a[id] {
      assert id in DocPoints(a, a[id].document);
    }
    forall id | id in b ensures id in a {
      assert id in DocPoints(b, b[id].document);
    }
  }

  /** Whether a remote call or write fails is up to the environment, unless it is calm. */
  method Fault(calm: bool) returns (fails: bool)
    ensures calm ==> !fails
  {
    fails := *;
    if calm { fails := false; }
  }

  /** After how many remote writes the environment cuts an operation off, if it does. */
  method Cutoff(calm: bool) returns (cut: Option<nat>)
    ensures calm ==> cut.None?
  {
    cut := *;
    if calm { cut := None; }
  }

  /** How many of `total` entries `writes` upserts of at most `batch` entries have stored. */
  function Stored(total: nat, batch: nat, writes: nat): (k: nat)
    ensures k <= total
  {
    if writes == 0 then 0
    else
      var before := Stored(total, batch, writes - 1);
      if before + batch < total then before + batch else total
  }

  /** Every write stores a full batch, the last one what is left. */
  lemma {:induction false} StoredExactly(total: nat, batch: nat, writes: nat)
    ensures Stored(total, batch, writes) == if writes * batch < total then writes * batch else total
  {
    if writes > 0 {
      StoredExactly(total, batch, writes - 1);
      assert writes * batch == (writes - 1) * batch + batch;
    }
  }

  function DenseOf(chunks: seq<Chunk>, embed: string -> Dense): seq<Dense> {
    seq(|chunks|, i requires 0 <= i < |chunks| => embed(chunks[i].text))
  }

  function SparseOf(chunks: seq<Chunk>, encode: string -> Sparse): seq<Sparse> {
    seq(|chunks|, i requires 0 <= i < |chunks| => encode(chunks[i].sparseText))
  }

  /** The points of a chunk list under deterministic encoders. */
  function DerivedPoints(chunks: seq<Chunk>, embed: string -> Dense, encode: string -> Sparse): Points {
    PointMap(PointList(chunks, DenseOf(chunks, embed), SparseOf(chunks, encode)))
  }

  /** A prefix of the points is the points of a prefix. */
  lemma PrefixPoints(chunks: seq<Chunk>, embed: string -> Dense, encode: string -> Sparse, k: nat)
    requires k <= |chunks|
    ensures PointMap(PointList(chunks, DenseOf(chunks, embed), SparseOf(chunks, encode))[..k])
         == DerivedPoints(chunks[..k], embed, encode)
  {
    assert PointList(chunks, DenseOf(chunks, embed), SparseOf(chunks, encode))[..k]
        == PointList(chunks[..k], DenseOf(chunks[..k], embed), SparseOf(chunks[..k], encode));
  }

  ghost predicate DistinctIds(chunks: seq<Chunk>) {
    forall i, j :: 0 <= i < j < |chunks| ==> chunks[i].id != chunks[j].id
  }

  /** The store holds these chunks of the document, each with its own vectors, and nothing else of it. */
  ghost predicate HoldsExactly(points: Points, d: DocId, chunks: seq<Chunk>, dense: seq<Dense>, sparse: seq<Sparse>)
    requires |chunks| == |dense| == |sparse|
  {
    && (forall i :: 0 <= i < |chunks| ==>
          chunks[i].id in points
          && points[chunks[i].id] == Point(d, chunks[i].index, chunks[i].text, dense[i], sparse[i]))
    && (forall id :: id in points && points[id].document == d ==>
          exists i :: 0 <= i < |chunks| && chunks[i].id == id)
  }

  /** Each chunk of the document is stored with the vectors of its own texts. */
  ghost predicate EmbedsExactly(points: Points, d: DocId, chunks: seq<Chunk>, embed: string -> Dense,
                                encode: string -> Sparse)
  {
    && (forall i :: 0 <= i < |chunks| ==>
          chunks[i].id in points
          && points[chunks[i].id]
             == Point(d, chunks[i].index, chunks[i].text, embed(chunks[i].text), encode(chunks[i].sparseText)))
    && (forall id :: id in points && points[id].document == d ==>
          exists i :: 0 <= i < |chunks| && chunks[i].id == id)
  }

  /** Upserting entries of distinct ids stores each entry under its id, and nothing else. */
  lemma {:induction false} MapHoldsList(list: seq<(ChunkId, Point)>)
    requires forall i, j :: 0 <= i < j < |list| ==> list[i].0 != list[j].0
    ensures forall i :: 0 <= i < |list| ==> list[i].0 in PointMap(list) && PointMap(list)[list[i].0] == list[i].1
    ensures forall id :: id in PointMap(list) ==> exists i :: 0 <= i < |list| && list[i].0 == id
    decreases |list|
  {
    if list != [] {
      var n := |list| - 1;
      MapHoldsList(list[..n]);
      forall id | id in PointMap(list) ensures exists i :: 0 <= i < |list| && list[i].0 == id {
        if id == list[n].0 {
        } else {
          var i :| 0 <= i < n && list[..n][i].0 == id;
          assert list[i].0 == id;
        }
      }
      forall i | 0 <= i < |list|
        ensures list[i].0 in PointMap(list) && PointMap(list)[list[i].0] == list[i].1
      {
        if i < n { assert list[..n][i] == list[i]; }
      }
    }
  }

  /** Replacing the points of a document stores exactly its chunks with their own vectors. */
  lemma ReplacementHolds(before: Points, d: DocId, chunks: seq<Chunk>, dense: seq<Dense>, sparse: seq<Sparse>)
    requires |chunks| == |dense| == |sparse| && ChunksOf(d, chunks) && DistinctIds(chunks)
    ensures HoldsExactly(Without(before, d) + PointMap(PointList(chunks, dense, sparse)), d, chunks, dense, sparse)
    ensures forall id :: id in before && before[id].document != d && id.document != d ==>
              var after := Without(before, d) + PointMap(PointList(chunks, dense, sparse));
              id in after && after[id] == before[id]
  {
    var list := PointList(chunks, dense, sparse);
    MapHoldsList(list);
    PointMapOf(d, list);
    forall i | 0 <= i < |chunks|
      ensures list[i] == (chunks[i].id, Point(d, chunks[i].index, chunks[i].text, dense[i], sparse[i])) {}
    var after := Without(before, d) + PointMap(list);
    forall id | id in after && after[id].document == d ensures exists i :: 0 <= i < |chunks| && chunks[i].id == id {
      assert id in PointMap(list);
      var i :| 0 <= i < |list| && list[i].0 == id;
      assert chunks[i].id == id;
    }
  }

  /** The derived points of a chunk list are its chunks with the vectors of their texts. */
  lemma DerivedEmbeds(d: DocId, chunks: seq<Chunk>, embed: string -> Dense, encode: string -> Sparse)
    requires ChunksOf(d, chunks) && DistinctIds(chunks)
    ensures EmbedsExactly(DerivedPoints(chunks, embed, encode), d, chunks, embed, encode)
  {
    var dense, sparse := DenseOf(chunks, embed), SparseOf(chunks, encode);
    ReplacementHolds(map[], d, chunks, dense, sparse);
    assert Without(map[], d) + PointMap(PointList(chunks, dense, sparse)) == PointMap(PointList(chunks, dense, sparse));
    assert forall i :: 0 <= i < |chunks| ==>
             dense[i] == embed(chunks[i].text) && sparse[i] == encode(chunks[i].sparseText);
  }

  lemma DerivedOwned(d: DocId, chunks: seq<Chunk>, embed: string -> Dense, encode: string -> Sparse)
    requires ChunksOf(d, chunks)
    ensures forall id :: id in DerivedPoints(chunks, embed, encode) ==>
              id.document == d && DerivedPoints(chunks, embed, encode)[id].document == d
  {
    PointMapOf(d, PointList(chunks, DenseOf(chunks, embed), SparseOf(chunks, encode)));
  }

  /** So does a store whose points of the document are the derived ones. */
  lemma StoreEmbeds(points: Points, d: DocId, chunks: seq<Chunk>, embed: string -> Dense, encode: string -> Sparse)
    requires ChunksOf(d, chunks) && DistinctIds(chunks)
    requires DocPoints(points, d) == DerivedPoints(chunks, embed, encode)
    ensures EmbedsExactly(points, d, chunks, embed, encode)
  {
    DerivedEmbeds(d, chunks, embed, encode);
    var derived := DerivedPoints(chunks, embed, encode);
    forall i | 0 <= i < |chunks|
      ensures chunks[i].id in points
      ensures points[chunks[i].id]
           == Point(d, chunks[i].index, chunks[i].text, embed(chunks[i].text), encode(chunks[i].sparseText))
    {
      assert chunks[i].id in derived && chunks[i].id in DocPoints(points, d);
    }
    forall id | id in points && points[id].document == d ensures exists i :: 0 <= i < |chunks| && chunks[i].id == id {
      assert id in DocPoints(points, d) && id in derived && derived[id].document == d;
    }
  }

  /** Embeds batch by batch, keeping vectors aligned with their chunks; any batch may fail for good. */
  method EmbedBatches(chunks: seq<Chunk>, embed: string -> Dense, batchSize: nat, calm: bool)
    returns (r: Option<seq<Dense>>)
    requires batchSize > 0
    ensures r.Some? ==> r.value == DenseOf(chunks, embed)
    ensures calm ==> r.Some?
  {
    var dense: seq<Dense> := [];
    var offset := 0;
    while offset < |chunks|
      invariant 0 <= offset <= |chunks|
      invariant dense == DenseOf(chunks, embed)[..offset]
    {
      var fails := Fault(calm);
      if fails { return None; }
      var end := if offset + batchSize < |chunks| then offset + batchSize else |chunks|;
      dense := dense + DenseOf(chunks[offset..end], embed);
      offset := end;
    }
    return Some(dense);
  }

  class QdrantIndex {
    var points: Points
    const upsertBatchSize: nat

    constructor (batch: nat)
      requires batch > 0
      ensures points == map[] && upsertBatchSize == batch
    {
      points := map[];
      upsertBatchSize := batch;
    }

    method DeleteDocument(d: DocId)
      modifies this
      ensures points == Without(old(points), d)
    {
      points := Without(points, d);
    }

    /** Upserts slice by slice. A run cut after some slices leaves the prefix they hold; one cut after the last
        has stored everything and still fails. */
    method UpsertSlices(list: seq<(ChunkId, Point)>, cut: Option<nat>) returns (ok: bool)
      requires upsertBatchSize > 0
      modifies this
      ensures cut.None? ==> ok
      ensures cut == Some(0) ==> !ok
      ensures ok ==> points == old(points) + PointMap(list)
      ensures !ok ==> points == old(points) + PointMap(list[..Stored(|list|, upsertBatchSize, cut.value)])
    {
      var offset, writes := 0, 0;
      assert list[..0] == [];
      while offset < |list|
        invariant 0 <= offset <= |list| && offset == Stored(|list|, upsertBatchSize, writes)
        invariant cut.Some? ==> writes <= cut.value
        invariant points == old(points) + PointMap(list[..offset])
        decreases |list| - offset
      {
        if cut == Some(writes) { return false; }
        var end := if offset + upsertBatchSize < |list| then offset + upsertBatchSize else |list|;
        StoreSlice(list, offset, end);
        writes, offset := writes + 1, end;
      }
      assert list[..|list|] == list;
      return cut != Some(writes);
    }

    method StoreSlice(list: seq<(ChunkId, Point)>, offset: nat, end: nat)
      requires offset <= end <= |list|
      modifies this
      ensures forall before :: old(points) == before + PointMap(list[..offset]) ==>
                points == before + PointMap(list[..end])
    {
      assert list[..end] == list[..offset] + list[offset..end];
      PointMapAppend(list[..offset], list[offset..end]);
      points := points + PointMap(list[offset..end]);
    }

    /** Deletes the document and upserts its points slice by slice. A failure can strike before the deletion,
        between it and the first slice, or after any slice, leaving a prefix of the points. */
    method ReplaceDocument(d: DocId, chunks: seq<Chunk>, dense: seq<Dense>, sparse: seq<Sparse>, cut: Option<nat>)
      returns (ok: bool)
      requires upsertBatchSize > 0
      modifies this
      ensures !(|chunks| == |dense| == |sparse|) ==> !ok && points == old(points)
      ensures |chunks| == |dense| == |sparse| && cut.None? ==> ok
      ensures ok ==> (cut.None? || cut.value > 1) && |chunks| == |dense| == |sparse|
      ensures |chunks| == |dense| == |sparse| && ok ==>
                points == Without(old(points), d) + PointMap(PointList(chunks, dense, sparse))
      ensures ok && ChunksOf(d, chunks) && DistinctIds(chunks) ==> HoldsExactly(points, d, chunks, dense, sparse)
      ensures |chunks| == |dense| == |sparse| && !ok ==>
                points == if cut.value == 0 then old(points)
                          else Without(old(points), d)
                               + PointMap(PointList(chunks, dense, sparse)
                                          [..Stored(|chunks|, upsertBatchSize, cut.value - 1)])
    {
      hide HoldsExactly, PointMap, Without, DistinctIds, ChunksOf;
      if |chunks| != |dense| || |dense| != |sparse| { return false; }
      if cut == Some(0) { return false; }
      if ChunksOf(d, chunks) && DistinctIds(chunks) { ReplacementHolds(points, d, chunks, dense, sparse); }
      DeleteDocument(d);
      ok := UpsertSlices(PointList(chunks, dense, sparse), if cut.Some? then Some(cut.value - 1) else None);
    }
  }

  /** Some prefix of the list has replaced the document's points. */
  ghost predicate PartlyReplaced(before: Points, after: Points, d: DocId, list: seq<(ChunkId, Point)>) {
    exists k :: 0 <= k <= |list| && after == Without(before, d) + PointMap(list[..k])
  }

  lemma PartialReplaceIsLocal(before: Points, after: Points, d: DocId, list: seq<(ChunkId, Point)>)
    requires Owned(before) && PartlyReplaced(before, after, d, list)
    requires forall i :: 0 <= i < |list| ==> list[i].0.document == d && list[i].1.document == d
    ensures Owned(after)
    ensures forall e :: e != d ==> DocPoints(after, e) == DocPoints(before, e)
  {
    var k :| 0 <= k <= |list| && after == Without(before, d) + PointMap(list[..k]);
    ReplaceIsLocal(before, d, list[..k]);
  }
}
