/** A document that one run finds several times in its list. Batches of the publisher never repeat a document, but
    nothing in the pipeline rules it out. Every entry is compared with the row that was there before the run, so
    the last entry sets the source fields of the row and the last one that was parsed everything else. */
module RepeatedUpserts {
  import opened Hashing
  import opened Orchestrator
  import opened PipelineRows
  import opened PointStore
  import opened Wrappers

  /** What the selection transaction does with one more entry of a document whose row was `seen`. */
  function SelectedOver(cfg: Config, chunking: Digest, force: bool, seen: View, v: View, entry: SourceDoc): View {
    var row := Upserted(v.row, entry);
    match Choose(cfg, chunking, force, seen, entry)
    case ParseIt => v.(row := Some(ContentInvalidated(row)), op := Some(Op(Delete, true)))
    case ChunkIt => v.(row := Some(ChunksInvalidated(row)), op := Some(Op(Delete, true)))
    case _ => v.(row := Some(row),
                 op := if seen.row.value.document.metadata != entry.metadata then Some(Op(Payload, true)) else v.op)
  }

  /** The first entry is treated like an entry that is not repeated. */
  lemma FirstEntry(cfg: Config, chunking: Digest, force: bool, seen: View, entry: SourceDoc)
    ensures SelectedOver(cfg, chunking, force, seen, seen, entry) == Selected(cfg, chunking, force, seen, entry)
  {
  }

  /** The entries that get this choice, in order. */
  function Choosing(cfg: Config, chunking: Digest, force: bool, seen: View, entries: seq<SourceDoc>, choice: Choice)
    : (chosen: seq<SourceDoc>)
    decreases |entries|
  {
    if entries == [] then []
    else
      var n := |entries| - 1;
      var front := Choosing(cfg, chunking, force, seen, entries[..n], choice);
      if Choose(cfg, chunking, force, seen, entries[n]) == choice then front + [entries[n]] else front
  }

  lemma {:induction false} ChoosingExactly(cfg: Config, chunking: Digest, force: bool, seen: View,
                                           entries: seq<SourceDoc>, choice: Choice)
    ensures forall e :: e in Choosing(cfg, chunking, force, seen, entries, choice) <==>
              e in entries && Choose(cfg, chunking, force, seen, e) == choice
    decreases |entries|
  {
    if entries != [] {
      var n := |entries| - 1;
      ChoosingExactly(cfg, chunking, force, seen, entries[..n], choice);
      forall e ensures e in entries <==> e in entries[..n] || e == entries[n] {
        assert entries == entries[..n] + [entries[n]];
      }
    }
  }

  function Last(entries: seq<SourceDoc>): SourceDoc
    requires entries != []
  {
    entries[|entries| - 1]
  }

  /** The entry whose parse, chunks and points are kept. */
  function Kept(cfg: Config, chunking: Digest, force: bool, seen: View, entries: seq<SourceDoc>): SourceDoc
    requires entries != []
  {
    var parsed := Choosing(cfg, chunking, force, seen, entries, ParseIt);
    if parsed == [] then Last(entries) else Last(parsed)
  }

  /** Entries that are not parsed all have the content of the row, and the same choice. */
  lemma NotParsedAlike(cfg: Config, chunking: Digest, force: bool, seen: View, e: SourceDoc, f: SourceDoc)
    requires Choose(cfg, chunking, force, seen, e) != ParseIt
    ensures seen.row.Some? && seen.row.value.document.content == e.content
    ensures f.content == e.content <==> Choose(cfg, chunking, force, seen, f) != ParseIt
    ensures f.content == e.content ==> Choose(cfg, chunking, force, seen, f) == Choose(cfg, chunking, force, seen, e)
  {
  }

  /** What is kept is the last entry's content exactly if the last entry is parsed or no entry differs from it. */
  lemma KeptIsLastExactly(cfg: Config, chunking: Digest, force: bool, seen: View, entries: seq<SourceDoc>)
    requires entries != []
    ensures Kept(cfg, chunking, force, seen, entries).content == Last(entries).content
            <==> Choose(cfg, chunking, force, seen, Last(entries)) == ParseIt
                 || forall e :: e in entries ==> e.content == Last(entries).content
  {
    var last, parsed := Last(entries), Choosing(cfg, chunking, force, seen, entries, ParseIt);
    ChoosingExactly(cfg, chunking, force, seen, entries, ParseIt);
    if Choose(cfg, chunking, force, seen, last) != ParseIt {
      forall e | e in entries
        ensures e.content == last.content <==> Choose(cfg, chunking, force, seen, e) != ParseIt
      {
        NotParsedAlike(cfg, chunking, force, seen, last, e);
      }
      if parsed != [] { assert Last(parsed) in parsed; }
    }
  }

  /** During selection only the row and the outbox entry change; what has been parsed or not shows in them. */
  ghost predicate Selecting(cfg: Config, chunking: Digest, force: bool, seen: View, done: seq<SourceDoc>, v: View) {
    && v.parsed == seen.parsed && v.file == seen.file && v.points == seen.points
    && (done == [] ==> v == seen)
    && (done != [] ==>
          v.row.Some? && v.row.value.document == Last(done) && v.row.value.source == SourceReady)
    && (done != [] && Choosing(cfg, chunking, force, seen, done, ParseIt) == [] ==>
          && v.row == Selected(cfg, chunking, force, seen, Last(done)).row
          && (Choose(cfg, chunking, force, seen, Last(done)) in {EmbedIt, SkipIt} ==>
                v.op in {seen.op, Some(Op(Payload, true))}))
  }

  lemma SelectingNext(cfg: Config, chunking: Digest, force: bool, seen: View, done: seq<SourceDoc>, v: View,
                      entry: SourceDoc)
    requires Selecting(cfg, chunking, force, seen, done, v)
    ensures Selecting(cfg, chunking, force, seen, done + [entry], SelectedOver(cfg, chunking, force, seen, v, entry))
  {
    assert (done + [entry])[..|done|] == done;
    var choice := Choose(cfg, chunking, force, seen, entry);
    if choice != ParseIt && done != [] && Choosing(cfg, chunking, force, seen, done, ParseIt) == [] {
      ChoosingExactly(cfg, chunking, force, seen, done, ParseIt);
      assert Last(done) in done;
      NotParsedAlike(cfg, chunking, force, seen, entry, Last(done));
    }
  }

  /** Parsed and chunked as the entry `kept`, with `last` in the source fields. */
  ghost predicate ChunkedAs(cfg: Config, chunking: Digest, kept: SourceDoc, last: SourceDoc, v: View) {
    var fp := Produced(cfg, kept.content);
    && v.row.Some? && v.row.value.document == last && v.row.value.source == SourceReady
    && v.row.value.parse == Ready && v.row.value.parseFp == Some(fp)
    && v.row.value.parser == Some(ProducedBy(cfg, kept.content)) && v.parsed == Some(fp)
    && (v.row.value.chunk == Ready ==>
          && v.row.value.chunkFp == Some(ChunkFingerprint(chunking, fp))
          && v.file == Some(ChunksFor(cfg, kept.id, ChunkFingerprint(chunking, fp))))
  }

  /** The selection transaction over the entries. */
  method SelectEntries(cfg: Config, chunking: Digest, force: bool, seen: View, entries: seq<SourceDoc>)
    returns (v: View, toParse: seq<SourceDoc>, toChunk: seq<SourceDoc>, toEmbed: seq<SourceDoc>)
    ensures Selecting(cfg, chunking, force, seen, entries, v)
    ensures toParse == Choosing(cfg, chunking, force, seen, entries, ParseIt)
    ensures toChunk == Choosing(cfg, chunking, force, seen, entries, ChunkIt)
    ensures toEmbed == Choosing(cfg, chunking, force, seen, entries, EmbedIt)
  {
    v, toParse, toChunk, toEmbed := seen, [], [], [];
    assert |entries[..0]| == 0;
    assert Selecting(cfg, chunking, force, seen, entries[..0], v);
    hide Selecting, SelectedOver, Choose;
    for i := 0 to |entries|
      invariant Selecting(cfg, chunking, force, seen, entries[..i], v)
      invariant toParse == Choosing(cfg, chunking, force, seen, entries[..i], ParseIt)
      invariant toChunk == Choosing(cfg, chunking, force, seen, entries[..i], ChunkIt)
      invariant toEmbed == Choosing(cfg, chunking, force, seen, entries[..i], EmbedIt)
    {
      assert entries[..i + 1] == entries[..i] + [entries[i]] && entries[..i + 1][..i] == entries[..i];
      SelectingNext(cfg, chunking, force, seen, entries[..i], v, entries[i]);
      v := SelectedOver(cfg, chunking, force, seen, v, entries[i]);
      match Choose(cfg, chunking, force, seen, entries[i])
      case ParseIt => toParse := toParse + [entries[i]];
      case ChunkIt => toChunk := toChunk + [entries[i]];
      case EmbedIt => toEmbed := toEmbed + [entries[i]];
      case SkipIt =>
    }
    assert entries[..|entries|] == entries;
  }

  /** What selection leaves to the later stages. */
  lemma Candidates(cfg: Config, chunking: Digest, force: bool, seen: View, entries: seq<SourceDoc>, d: DocId, v: View)
    requires entries != [] && DocOk(cfg, d, seen) && Selecting(cfg, chunking, force, seen, entries, v)
    requires forall e :: e in entries ==> e.id == d
    ensures Kept(cfg, chunking, force, seen, entries).id == d
    ensures Choosing(cfg, chunking, force, seen, entries, ParseIt) == [] ==>
              var kept, last := Kept(cfg, chunking, force, seen, entries), Last(entries);
              && ChunkedAs(cfg, chunking, kept, last, v)
              && (Choosing(cfg, chunking, force, seen, entries, ChunkIt) == [] ==> v.row.value.chunk == Ready)
              && (Choosing(cfg, chunking, force, seen, entries, ChunkIt) == []
                  && Choosing(cfg, chunking, force, seen, entries, EmbedIt) == [] ==>
                    v.row == Some(ReadyRow(cfg, last, chunking)) && v.points == ScratchPoints(cfg, last, chunking)
                    && !PendingDelete(v.op))
  {
    var last, parsed := Last(entries), Choosing(cfg, chunking, force, seen, entries, ParseIt);
    ChoosingExactly(cfg, chunking, force, seen, entries, ParseIt);
    ChoosingExactly(cfg, chunking, force, seen, entries, ChunkIt);
    ChoosingExactly(cfg, chunking, force, seen, entries, EmbedIt);
    assert last in entries;
    if parsed != [] {
      assert Last(parsed) in parsed;
    } else {
      SelectionKeeps(cfg, chunking, force, seen, last);
    }
  }

  /** The workers parse every entry in turn, over the same artifacts; then the results are recorded in turn. */
  method ParseEntries(cfg: Config, chunking: Digest, v0: View, entries: seq<SourceDoc>, d: DocId) returns (v: View)
    requires v0.row.Some? && v0.row.value.source == SourceReady && forall e :: e in entries ==> e.id == d
    ensures entries == [] ==> v == v0
    ensures entries != [] ==> ChunkedAs(cfg, chunking, Last(entries), v0.row.value.document, v)
    ensures entries != [] ==> v.row.value.chunk == Ready && v.op == Some(Op(Replace, true))
  {
    v := v0;
    for i := 0 to |entries|
      invariant v.row == v0.row && v.op == v0.op && v.points == v0.points && (i == 0 ==> v == v0)
      invariant i > 0 ==>
                  var fp := Produced(cfg, entries[i - 1].content);
                  v.parsed == Some(fp) && v.file == Some(ChunksFor(cfg, d, ChunkFingerprint(chunking, fp)))
    {
      var fp := Produced(cfg, entries[i].content);
      v := v.(parsed := Some(fp), file := Some(ChunksFor(cfg, d, ChunkFingerprint(chunking, fp))));
    }
    ghost var written := v;
    for i := 0 to |entries|
      invariant v.parsed == written.parsed && v.file == written.file && (i == 0 ==> v == written)
      invariant v.row.Some? && v.row.value.document == v0.row.value.document && v.row.value.source == SourceReady
      invariant i > 0 ==>
                  v.row.value == ParsedRow(cfg, v.row.value, entries[i - 1].content, chunking)
                  && v.op == Some(Op(Replace, true))
    {
      v := v.(row := Some(ParsedRow(cfg, v.row.value, entries[i].content, chunking)), op := Some(Op(Replace, true)));
    }
  }

  /** Chunks are rebuilt from whatever parse artifact is there by now. */
  method RechunkEntries(cfg: Config, chunking: Digest, v0: View, entries: seq<SourceDoc>, d: DocId,
                        ghost kept: SourceDoc, ghost last: SourceDoc)
    returns (v: View)
    requires ChunkedAs(cfg, chunking, kept, last, v0) && kept.id == d
    ensures entries == [] ==> v == v0
    ensures ChunkedAs(cfg, chunking, kept, last, v)
    ensures entries != [] ==> v.row.value.chunk == Ready && v.op == Some(Op(Replace, true))
  {
    v := v0;
    for i := 0 to |entries|
      invariant ChunkedAs(cfg, chunking, kept, last, v) && (i == 0 ==> v == v0)
      invariant i > 0 ==> v.row.value.chunk == Ready && v.op == Some(Op(Replace, true))
    {
      v := Rechunked(cfg, d, v, ChunkFingerprint(chunking, v.parsed.value));
    }
  }

  /** Every candidate entry embeds the chunk artifact that is there by now. */
  method EmbedEntries(cfg: Config, chunking: Digest, v0: View, candidates: nat, d: DocId,
                      ghost kept: SourceDoc, ghost last: SourceDoc)
    returns (v: View)
    requires ChunkedAs(cfg, chunking, kept, last, v0) && kept.id == d && v0.row.value.chunk == Ready
    ensures candidates == 0 ==> v == v0
    ensures candidates > 0 ==>
              v.row == Some(ReadyRow(cfg, kept, chunking).(document := last))
              && v.points == ScratchPoints(cfg, kept, chunking) && v.op == Completed(v0.op)
  {
    v := v0;
    for i := 0 to candidates
      invariant ChunkedAs(cfg, chunking, kept, last, v) && v.row.value.chunk == Ready
      invariant if i == 0 then v == v0
                else v.row == Some(ReadyRow(cfg, kept, chunking).(document := last))
                     && v.points == ScratchPoints(cfg, kept, chunking) && v.op == Completed(v0.op)
    {
      v := v.(row := Some(IndexedRow(cfg, v.row.value)), op := Completed(v.op),
              points := DerivedPoints(v.file.value, cfg.embed, cfg.encode));
    }
  }

  predicate NeedsApplying(op: Option<Op>) {
    op.Some? && op.value.pending && op.value.kind != Replace
  }

  /** Applying the outbox entry at the end of the run. */
  method ApplyEntry(v0: View) returns (v: View)
    ensures v.row == v0.row && v.parsed == v0.parsed && v.file == v0.file
    ensures v.points == if PendingDelete(v0.op) then map[] else v0.points
    ensures v.op == if NeedsApplying(v0.op) then Completed(v0.op) else v0.op
  {
    v := v0;
    if v.op.Some? && v.op.value.pending && v.op.value.kind != Replace {
      if v.op.value.kind == Delete { v := v.(points := map[]); }
      v := v.(op := Completed(v.op));
    }
  }

  /** The run over the entries of one document in which nothing fails, stage by stage. */
  method ProcessEntries(cfg: Config, chunking: Digest, force: bool, seen: View, entries: seq<SourceDoc>, d: DocId)
    returns (v: View)
    requires entries != [] && DocOk(cfg, d, seen)
    requires forall e :: e in entries ==> e.id == d && !cfg.unreadable(e.content)
    ensures var kept, last := Kept(cfg, chunking, force, seen, entries), Last(entries);
            && v.row == Some(ReadyRow(cfg, kept, chunking).(document := last))
            && v.points == ScratchPoints(cfg, kept, chunking)
            && !NeedsApplying(v.op)
  {
    hide Choosing, Choose, Selected, DocOk;
    var toParse, toChunk, toEmbed;
    v, toParse, toChunk, toEmbed := SelectEntries(cfg, chunking, force, seen, entries);
    ghost var kept, last := Kept(cfg, chunking, force, seen, entries), Last(entries);
    Candidates(cfg, chunking, force, seen, entries, d, v);
    ChoosingExactly(cfg, chunking, force, seen, entries, ParseIt);
    v := ParseEntries(cfg, chunking, v, toParse, d);
    v := RechunkEntries(cfg, chunking, v, toChunk, d, kept, last);
    v := EmbedEntries(cfg, chunking, v, |toEmbed| + |toParse| + |toChunk|, d, kept, last);
    v := ApplyEntry(v);
  }

  /** Ready at this document, with the points of a build from nothing of it. */
  ghost predicate EndsAt(cfg: Config, chunking: Digest, document: SourceDoc, v: View) {
    v.row == Some(ReadyRow(cfg, document, chunking)) && v.points == ScratchPoints(cfg, document, chunking)
  }

  /** A run in which nothing fails leaves the document at the last of its entries, and keeps its index agreement,
      if and only if that entry is parsed or no earlier one differs from it in content. */
  lemma LastEntryWinsExactly(cfg: Config, chunking: Digest, force: bool, seen: View, entries: seq<SourceDoc>,
                             d: DocId, v: View)
    requires entries != [] && forall e :: e in entries ==> e.id == d
    requires var kept := Kept(cfg, chunking, force, seen, entries);
             v.row == Some(ReadyRow(cfg, kept, chunking).(document := Last(entries)))
             && v.points == ScratchPoints(cfg, kept, chunking)
    ensures EndsAt(cfg, chunking, Last(entries), v)
            <==> Choose(cfg, chunking, force, seen, Last(entries)) == ParseIt
                 || forall e :: e in entries ==> e.content == Last(entries).content
    ensures DocOk(cfg, d, v) ==> EndsAt(cfg, chunking, Last(entries), v)
  {
    KeptIsLastExactly(cfg, chunking, force, seen, entries);
    ChoosingExactly(cfg, chunking, force, seen, entries, ParseIt);
    var kept, last := Kept(cfg, chunking, force, seen, entries), Last(entries);
    var parsed := Choosing(cfg, chunking, force, seen, entries, ParseIt);
    if parsed != [] { assert Last(parsed) in parsed; }
    assert Produced(cfg, kept.content).fields[0] == kept.content;
    assert Produced(cfg, last.content).fields[0] == last.content;
  }

  /** The failing input: a ready document, OCR off, in one batch first with new content and then as it was. The
      row ends with the old content under the parse fingerprint and the points of the new one. */
  method UpsertedAndRestored(cfg: Config, chunking: Digest, a: SourceDoc, b: SourceDoc, seen: View) returns (v: View)
    requires a.id == b.id && a.content != b.content && !cfg.ocr && !cfg.unreadable(b.content)
    requires cfg.primary.name == cfg.fallback.name ==> cfg.primary == cfg.fallback
    requires seen.row == Some(ReadyRow(cfg, a, chunking)) && seen.file.Some? && DocOk(cfg, a.id, seen)
    ensures v.row == Some(ReadyRow(cfg, b, chunking).(document := a)) && v.points == ScratchPoints(cfg, b, chunking)
    ensures !EndsAt(cfg, chunking, a, v) && !DocOk(cfg, a.id, v)
  {
    var entries := [b, a];
    SkippedNextTime(cfg, a, chunking, seen);
    v := ProcessEntries(cfg, chunking, false, seen, entries, a.id);
    assert entries[..1] == [b] && |[b][..0]| == 0;
    assert Choosing(cfg, chunking, false, seen, [b], ParseIt) == [b];
    assert Kept(cfg, chunking, false, seen, entries) == b;
    assert b in entries;
    LastEntryWinsExactly(cfg, chunking, false, seen, entries, a.id, v);
  }
}
