/** Document rows of the RAG pipeline: stage statuses, fingerprints, the one-op-per-document outbox, and what
    each transaction does to one document. */
module PipelineRows {
  import opened Hashing
  import opened PointStore
  import opened Wrappers

  datatype Source = SourceReady | Unavailable | Deleted
  datatype Stage = Waiting | Stale | Ready | Failed

  datatype SourceDoc = SourceDoc(id: DocId, content: Digest, metadata: Digest)

  datatype Row = Row(
    document: SourceDoc,
    source: Source,
    parse: Stage,
    parseFp: Option<Digest>,
    parser: Option<string>,
    chunk: Stage,
    chunkFp: Option<Digest>,
    embedding: Stage,
    embeddingFp: Option<Digest>,
    dense: Stage,
    sparse: Stage)

  datatype OpKind = Delete | Replace | Payload
  datatype Op = Op(kind: OpKind, pending: bool)

  datatype Parser = Parser(name: string, version: int)

  /** What stays fixed between runs: the parsers, the embedding configuration, and the deterministic foreign
      functions. `rejects` says which contents the primary parser refuses and `unreadable` which neither parser
      reads; `texts` gives the chunk texts that a chunk fingerprint stands for. */
  datatype Config = Config(
    primary: Parser,
    fallback: Parser,
    ocr: bool,
    embedding: Digest,
    rejects: Digest -> bool,
    unreadable: Digest -> bool,
    texts: Digest -> seq<string>,
    embed: string -> Dense,
    encode: string -> Sparse)

  function ParseFingerprint(content: Digest, parser: Parser, ocr: bool): Digest {
    Record([content, Text(parser.name), Number(parser.version), Flag(ocr)])
  }

  /** The fingerprint a parse of this content carries. The fallback parser, and PyMuPDF in any role, never
      runs OCR. */
  function Produced(cfg: Config, content: Digest): Digest {
    if cfg.rejects(content) then ParseFingerprint(content, cfg.fallback, false)
    else ParseFingerprint(content, cfg.primary, cfg.ocr && cfg.primary.name != "pymupdf")
  }

  function ProducedBy(cfg: Config, content: Digest): string {
    if cfg.rejects(content) then cfg.fallback.name else cfg.primary.name
  }

  /** The fingerprint the coordinator compares with: the configured OCR flag whatever the parser. */
  function Expected(cfg: Config, content: Digest, parser: Option<string>): Digest {
    ParseFingerprint(content, if parser == Some(cfg.fallback.name) then cfg.fallback else cfg.primary, cfg.ocr)
  }

  function ChunkFingerprint(chunking: Digest, parse: Digest): Digest {
    Record([chunking, parse])
  }

  function OrEmpty(d: Option<Digest>): Digest {
    if d.Some? then d.value else Text("")
  }

  function EmbeddingFingerprint(cfg: Config, chunk: Option<Digest>): Digest {
    Record([cfg.embedding, OrEmpty(chunk)])
  }

  function ChunksFor(cfg: Config, d: DocId, chunkFp: Digest): seq<Chunk> {
    var texts := cfg.texts(chunkFp);
    seq(|texts|, i requires 0 <= i < |texts| =>
      Chunk(ChunkId(d, i, Record([chunkFp, Text(texts[i])])), d, i, texts[i], texts[i]))
  }

  function PointsFor(cfg: Config, d: DocId, chunkFp: Digest): Points {
    DerivedPoints(ChunksFor(cfg, d, chunkFp), cfg.embed, cfg.encode)
  }

  /** The points a build from nothing gives a ready document. */
  function ScratchPoints(cfg: Config, document: SourceDoc, chunking: Digest): Points {
    PointsFor(cfg, document.id, ChunkFingerprint(chunking, Produced(cfg, document.content)))
  }

  /** A chunk fingerprint determines the chunking and the parse it was made from: content, parser, its version, and
      whether it ran OCR. */
  lemma ChunkFingerprintDetermines(chunking1: Digest, content1: Digest, parser1: Parser, ocr1: bool,
                                   chunking2: Digest, content2: Digest, parser2: Parser, ocr2: bool)
    ensures (ChunkFingerprint(chunking1, ParseFingerprint(content1, parser1, ocr1))
             == ChunkFingerprint(chunking2, ParseFingerprint(content2, parser2, ocr2)))
            <==> ((chunking1, content1, parser1, ocr1) == (chunking2, content2, parser2, ocr2))
  {
    var p1, p2 := ParseFingerprint(content1, parser1, ocr1), ParseFingerprint(content2, parser2, ocr2);
    var c1, c2 := ChunkFingerprint(chunking1, p1), ChunkFingerprint(chunking2, p2);
    if c1 == c2 {
      assert c1.fields[0] == c2.fields[0] && c1.fields[1] == c2.fields[1];
      assert p1.fields[0] == p2.fields[0] && p1.fields[1] == p2.fields[1];
      assert p1.fields[2] == p2.fields[2] && p1.fields[3] == p2.fields[3];
    }
  }

  /** What was parsed, by whom: a content the primary parser refuses goes to the fallback parser without OCR, any
      other to the primary parser with OCR as configured, which PyMuPDF ignores. */
  lemma ProducedDetermines(cfg: Config, content: Digest, other: Digest, parser: Parser, ocr: bool)
    ensures Produced(cfg, content) == ParseFingerprint(other, parser, ocr) <==>
              && other == content
              && (cfg.rejects(content) ==> parser == cfg.fallback && !ocr)
              && (!cfg.rejects(content) ==> parser == cfg.primary && (ocr <==> cfg.ocr && parser.name != "pymupdf"))
    ensures Produced(cfg, content) == ParseFingerprint(content, parser, ocr) ==> ProducedBy(cfg, content) == parser.name
  {
    var made := if cfg.rejects(content) then cfg.fallback else cfg.primary;
    var ran := !cfg.rejects(content) && cfg.ocr && cfg.primary.name != "pymupdf";
    assert Produced(cfg, content) == ParseFingerprint(content, made, ran);
    ChunkFingerprintDetermines(Text(""), content, made, ran, Text(""), other, parser, ocr);
    if Produced(cfg, content) == ParseFingerprint(other, parser, ocr) {
      assert ChunkFingerprint(Text(""), Produced(cfg, content))
          == ChunkFingerprint(Text(""), ParseFingerprint(other, parser, ocr));
    }
  }

  /** An embedding fingerprint determines the embedding configuration and the chunks. */
  lemma EmbeddingFingerprintDetermines(a: Config, b: Config, x: Digest, y: Digest)
    ensures EmbeddingFingerprint(a, Some(x)) == EmbeddingFingerprint(b, Some(y))
            <==> a.embedding == b.embedding && x == y
  {
    var e, f := EmbeddingFingerprint(a, Some(x)), EmbeddingFingerprint(b, Some(y));
    if e == f { assert e.fields[0] == f.fields[0] && e.fields[1] == f.fields[1]; }
  }

  /** Chunk i of a document is its own, has index i and carries text i; its id names the document, the index, what
      the chunks were made from, and the text. */
  lemma ChunksCarryTexts(cfg: Config, d: DocId, chunkFp: Digest)
    ensures var chunks := ChunksFor(cfg, d, chunkFp);
            && |chunks| == |cfg.texts(chunkFp)| && ChunksOf(d, chunks) && DistinctIds(chunks)
            && forall i :: 0 <= i < |chunks| ==>
                 && chunks[i].index == chunks[i].id.index == i && MadeFrom(chunks[i].id, chunkFp)
                 && chunks[i].id.fingerprint.fields[1] == Text(chunks[i].text)
                 && chunks[i].text == chunks[i].sparseText == cfg.texts(chunkFp)[i]
  {
  }

  /** The points of a document are its texts, text i under index i with the vectors of that text: none is missing,
      and there are no others. */
  ghost predicate CarriesTexts(cfg: Config, d: DocId, texts: seq<string>, points: Points) {
    && (forall id :: id in points ==>
          id.document == d && id.index < |texts|
          && points[id] == Point(d, id.index, texts[id.index], cfg.embed(texts[id.index]), cfg.encode(texts[id.index])))
    && forall i :: 0 <= i < |texts| ==> HasIndex(points, i)
  }

  ghost predicate HasIndex(points: Points, i: nat) {
    exists id :: id in points && id.index == i
  }

  lemma PointsCarryTexts(cfg: Config, d: DocId, chunkFp: Digest)
    ensures CarriesTexts(cfg, d, cfg.texts(chunkFp), PointsFor(cfg, d, chunkFp))
    ensures forall id :: id in PointsFor(cfg, d, chunkFp) ==> MadeFrom(id, chunkFp)
  {
    var chunks, points := ChunksFor(cfg, d, chunkFp), PointsFor(cfg, d, chunkFp);
    ChunksCarryTexts(cfg, d, chunkFp);
    hide ChunksFor, DerivedPoints;
    DerivedEmbeds(d, chunks, cfg.embed, cfg.encode);
    DerivedOwned(d, chunks, cfg.embed, cfg.encode);
    forall i | 0 <= i < |chunks| ensures HasIndex(points, i) {
      assert chunks[i].id in points && chunks[i].id.index == i;
    }
    forall id | id in points
      ensures id.index < |chunks| && MadeFrom(id, chunkFp)
      ensures points[id]
           == Point(d, id.index, chunks[id.index].text, cfg.embed(chunks[id.index].text),
                    cfg.encode(chunks[id.index].text))
    {
      var i :| 0 <= i < |chunks| && chunks[i].id == id;
    }
  }

  /** The id says what its chunk was made from. */
  predicate MadeFrom(id: ChunkId, chunkFp: Digest) {
    id.fingerprint.Record? && |id.fingerprint.fields| == 2 && id.fingerprint.fields[0] == chunkFp
  }

  /** No chunk id of one version of a document is among the points of another. */
  lemma OtherVersionsApart(cfg: Config, d: DocId, x: Digest, y: Digest)
    requires x != y
    ensures PointsFor(cfg, d, x).Keys !! PointsFor(cfg, d, y).Keys
  {
    hide PointsFor;
    PointsCarryTexts(cfg, d, x);
    PointsCarryTexts(cfg, d, y);
  }

  // ---- One document ----

  /** Everything durable that concerns one document. */
  datatype View = View(
    row: Option<Row>, op: Option<Op>, parsed: Option<Digest>, file: Option<seq<Chunk>>, points: Points)

  predicate PendingDelete(op: Option<Op>) {
    op == Some(Op(Delete, true))
  }

  predicate IndexReady(r: Row) {
    r.embedding == Ready || r.dense == Ready || r.sparse == Ready
  }

  /** Index agreement: what the statuses of one document promise at every crash point. */
  ghost predicate DocOk(cfg: Config, d: DocId, v: View) {
    match v.row
    case None => v.points == map[]
    case Some(r) =>
      && r.document.id == d
      && (r.parse == Ready ==>
            !cfg.unreadable(r.document.content) && r.parseFp == Some(Produced(cfg, r.document.content))
            && r.parser == Some(ProducedBy(cfg, r.document.content)) && v.parsed == r.parseFp)
      && (r.chunk == Ready ==>
            r.parse == Ready && r.chunkFp.Some?
            && (v.file.Some? ==> v.file.value == ChunksFor(cfg, d, r.chunkFp.value)))
      && (IndexReady(r) ==>
            r.embedding == Ready && r.dense == Ready && r.sparse == Ready && r.chunk == Ready
            && r.embeddingFp == Some(EmbeddingFingerprint(cfg, r.chunkFp))
            && v.points == PointsFor(cfg, d, r.chunkFp.value)
            && !PendingDelete(v.op))
      && (r.source != SourceReady ==>
            r.parse != Ready && r.chunk != Ready && !IndexReady(r)
            && (v.points == map[] || PendingDelete(v.op)))
  }

  function Inserted(document: SourceDoc): Row {
    Row(document, SourceReady, Waiting, None, None, Waiting, None, Waiting, None, Waiting, Waiting)
  }

  function Upserted(prior: Option<Row>, document: SourceDoc): Row {
    if prior.None? then Inserted(document) else prior.value.(document := document, source := SourceReady)
  }

  function ContentInvalidated(r: Row): Row {
    r.(parse := Waiting, chunk := Stale, embedding := Stale, dense := Stale, sparse := Stale)
  }

  function ChunksInvalidated(r: Row): Row {
    r.(chunk := Waiting, embedding := Stale, dense := Stale, sparse := Stale)
  }

  function MarkedUnavailable(r: Row, status: Source): Row {
    r.(source := status, parse := Stale, chunk := Stale, embedding := Stale, dense := Stale, sparse := Stale)
  }

  function UnavailableView(v: View, status: Source): View {
    v.(row := if v.row.Some? then Some(MarkedUnavailable(v.row.value, status)) else None,
       op := Some(Op(Delete, true)))
  }

  datatype Choice = ParseIt | ChunkIt | EmbedIt | SkipIt

  function Choose(cfg: Config, chunking: Digest, force: bool, v: View, document: SourceDoc): Choice {
    if force || v.row.None? || v.row.value.document.content != document.content || v.row.value.parse != Ready
       || v.row.value.parseFp != Some(Expected(cfg, document.content, v.row.value.parser)) then ParseIt
    else
      var prior := v.row.value;
      if prior.chunk != Ready || v.file.None?
         || prior.chunkFp != Some(ChunkFingerprint(chunking, OrEmpty(prior.parseFp)))
      then ChunkIt
      else if force || prior.embedding != Ready || prior.embeddingFp != Some(EmbeddingFingerprint(cfg, prior.chunkFp))
              || prior.dense != Ready || prior.sparse != Ready
      then EmbedIt
      else SkipIt
  }

  /** The selection transaction's effect on a source document. */
  function Selected(cfg: Config, chunking: Digest, force: bool, v: View, document: SourceDoc): View {
    var row := Upserted(v.row, document);
    match Choose(cfg, chunking, force, v, document)
    case ParseIt => v.(row := Some(ContentInvalidated(row)), op := Some(Op(Delete, true)))
    case ChunkIt => v.(row := Some(ChunksInvalidated(row)), op := Some(Op(Delete, true)))
    case _ => v.(row := Some(row),
                 op := if v.row.value.document.metadata != document.metadata then Some(Op(Payload, true)) else v.op)
  }

  function ParsedRow(cfg: Config, r: Row, content: Digest, chunking: Digest): Row {
    r.(parse := Ready, parseFp := Some(Produced(cfg, content)), parser := Some(ProducedBy(cfg, content)),
       chunk := Ready, chunkFp := Some(ChunkFingerprint(chunking, Produced(cfg, content))))
  }

  function ParseFailedRow(r: Row): Row {
    r.(parse := Failed, parseFp := None)
  }

  function IndexedRow(cfg: Config, r: Row): Row {
    r.(embedding := Ready, embeddingFp := Some(EmbeddingFingerprint(cfg, r.chunkFp)), dense := Ready, sparse := Ready)
  }

  function Completed(op: Option<Op>): Option<Op> {
    if op.Some? then Some(op.value.(pending := false)) else None
  }

  /** The row of a document that every stage has processed at the current fingerprints. */
  function ReadyRow(cfg: Config, document: SourceDoc, chunking: Digest): Row {
    var parse := Produced(cfg, document.content);
    var chunk := ChunkFingerprint(chunking, parse);
    Row(document, SourceReady, Ready, Some(parse), Some(ProducedBy(cfg, document.content)),
        Ready, Some(chunk), Ready, Some(EmbeddingFingerprint(cfg, Some(chunk))), Ready, Ready)
  }

  ghost predicate ParsedOk(cfg: Config, r: Row, document: SourceDoc) {
    && r.document == document && r.source == SourceReady
    && r.parse == Ready && r.parseFp == Some(Produced(cfg, document.content))
    && r.parser == Some(ProducedBy(cfg, document.content))
  }

  ghost predicate ChunkedOk(cfg: Config, r: Row, document: SourceDoc, chunking: Digest) {
    && ParsedOk(cfg, r, document)
    && r.chunk == Ready && r.chunkFp == Some(ChunkFingerprint(chunking, Produced(cfg, document.content)))
  }

  /** What selection leaves, case by case. */
  lemma SelectionKeeps(cfg: Config, chunking: Digest, force: bool, v: View, document: SourceDoc)
    requires DocOk(cfg, document.id, v)
    ensures var v' := Selected(cfg, chunking, force, v, document);
            && DocOk(cfg, document.id, v')
            && v'.row.Some? && v'.row.value.document == document && v'.row.value.source == SourceReady
            && (match Choose(cfg, chunking, force, v, document)
                case ParseIt => v'.row.value.parse == Waiting && PendingDelete(v'.op)
                case ChunkIt => ParsedOk(cfg, v'.row.value, document) && v'.row.value.chunk == Waiting
                                && PendingDelete(v'.op)
                case EmbedIt => ChunkedOk(cfg, v'.row.value, document, chunking)
                                && !IndexReady(v'.row.value) && v'.file.Some?
                case SkipIt => v'.row.value == ReadyRow(cfg, document, chunking))
  {
  }

  /** A processed document is skipped by the next run exactly when OCR is off or its parser runs it. With OCR
      on, whatever PyMuPDF or the fallback parsed is parsed again by every run. */
  lemma SkippedNextTime(cfg: Config, document: SourceDoc, chunking: Digest, v: View)
    requires cfg.primary.name == cfg.fallback.name ==> cfg.primary == cfg.fallback
    requires v.row == Some(ReadyRow(cfg, document, chunking)) && v.file.Some?
    ensures Choose(cfg, chunking, false, v, document) == SkipIt
            <==> !cfg.ocr || (!cfg.rejects(document.content) && cfg.primary.name != "pymupdf")
    ensures Choose(cfg, chunking, false, v, document) in {SkipIt, ParseIt}
  {
    var produced, expected := Produced(cfg, document.content),
      Expected(cfg, document.content, Some(ProducedBy(cfg, document.content)));
    assert produced.fields[3] == Flag(if cfg.rejects(document.content) then false
                                      else cfg.ocr && cfg.primary.name != "pymupdf");
    assert expected.fields[3] == Flag(cfg.ocr);
  }

  /** Replacing the points of a document through any prefix keeps the agreement exactly when its row does not
      claim to be indexed, or nothing is there to be lost. Forcing an embedding run over ready rows breaks it. */
  lemma ReplacementTearsExactly(cfg: Config, d: DocId, v: View)
    requires DocOk(cfg, d, v) && v.row.Some? && v.row.value.chunk == Ready && v.file.Some?
    ensures (forall k :: 0 <= k <= |v.file.value| ==>
               DocOk(cfg, d, v.(points := DerivedPoints(v.file.value[..k], cfg.embed, cfg.encode))))
            <==> !IndexReady(v.row.value) || v.file.value == []
  {
    var list := v.file.value;
    assert list[..|list|] == list;
    if IndexReady(v.row.value) && list != [] {
      assert list[..0] == [];
      assert DerivedPoints(list[..0], cfg.embed, cfg.encode) == map[];
      var whole := PointList(list, DenseOf(list, cfg.embed), SparseOf(list, cfg.encode));
      assert whole[|whole| - 1].0 in PointMap(whole);
      assert !DocOk(cfg, d, v.(points := DerivedPoints(list[..0], cfg.embed, cfg.encode)));
    } else if list == [] {
      forall k | 0 <= k <= |list| ensures list[..k] == list {}
      assert v.(points := DerivedPoints(list, cfg.embed, cfg.encode)) == v || !IndexReady(v.row.value);
    }
  }
}
