/** Validation of a code index against its state, its artifacts, its sources and the vector store. The
    validator only collects findings; it accepts exactly the consistent indexes.

    An artifact is named by the document its file name is derived from. */
module Validation {
  import opened Wrappers
  import Sorting

  datatype DocId = DocId(name: string)
  datatype ChunkKey = ChunkKey(name: string)

  /** `proper` stands for the checks that look at nothing but the row itself. */
  datatype Row = Row(active: bool, proper: bool)

  /** One line of a chunk artifact; `proper` stands for its text hash, fingerprint and metadata. */
  datatype Line = Line(id: Option<ChunkKey>, document: DocId, index: int, proper: bool)

  datatype Point = Point(id: ChunkKey, chunk: ChunkKey, document: DocId, base: bool)

  /** `settled` says of an active document that its state matches its source record. */
  datatype Local = Local(rows: map<DocId, Row>, tombstones: set<DocId>, sources: set<DocId>,
                         artifacts: map<DocId, seq<Line>>, settled: DocId -> bool)

  /** The collection's status, its two point counts, and what scrolling it returns. */
  datatype Remote = Remote(green: bool, reported: nat, exact: nat, points: seq<Point>)

  datatype Finding =
    | ImproperRow(d: DocId) | ActiveTombstoned(d: DocId) | InactiveUntombstoned(d: DocId) | UnknownTombstone(d: DocId)
    | Unreferenced(d: DocId) | MissingArtifact(d: DocId) | EmptyArtifact(d: DocId) | NoSource(d: DocId)
    | Unsettled(d: DocId)
    | MissingChunkId(d: DocId) | DuplicateChunk(id: ChunkKey) | WrongDocument(d: DocId) | BadIndex(d: DocId)
    | ImproperLine(d: DocId) | NonContiguous(d: DocId)
    | NotGreen | CountsDisagree | CountMismatch | PayloadMismatch(id: ChunkKey) | MissingPoint(id: ChunkKey)
    | UnknownPoint(id: ChunkKey)

  type Findings = seq<Finding>

  // ---- Index state ----

  ghost predicate StateOk(rows: map<DocId, Row>, tombstones: set<DocId>) {
    (forall d :: d in rows ==> rows[d].proper) && tombstones == set d | d in rows && !rows[d].active
  }

  method CheckState(rows: map<DocId, Row>, tombstones: set<DocId>) returns (found: Findings)
    ensures found == [] <==> StateOk(rows, tombstones)
  {
    found := [];
    var todo := rows.Keys;
    while todo != {}
      invariant todo <= rows.Keys
      invariant found == [] <==>
                forall d :: d in rows && d !in todo ==> rows[d].proper && (rows[d].active <==> d !in tombstones)
      decreases todo
    {
      var d :| d in todo;
      todo := todo - {d};
      if !rows[d].proper { found := found + [ImproperRow(d)]; }
      if rows[d].active && d in tombstones { found := found + [ActiveTombstoned(d)]; }
      if !rows[d].active && d !in tombstones { found := found + [InactiveUntombstoned(d)]; }
    }
    var unknown := tombstones - rows.Keys;
    if unknown != {} {
      var d :| d in unknown;
      found := found + [UnknownTombstone(d)];
      assert d in tombstones && d !in rows;
    } else {
      assert tombstones <= rows.Keys;
    }
  }

  // ---- Artifacts ----

  function Range(n: nat): seq<int> {
    seq(n, i => i)
  }

  function Indexes(lines: seq<Line>): seq<int>
    decreases |lines|
  {
    if lines == [] then []
    else
      var n := |lines| - 1;
      Indexes(lines[..n]) + if lines[n].index >= 0 then [lines[n].index] else []
  }

  function Identity(i: int): int { i }

  lemma {:induction false} OrderedRange(n: nat)
    ensures Sorting.Ordered(Identity, Range(n))
    decreases n
  {
    if n > 1 {
      OrderedRange(n - 1);
      assert Range(n)[..n - 1] == Range(n - 1);
    }
  }

  lemma SameLast(a: seq<int>, b: seq<int>)
    requires Sorting.Ordered(Identity, a) && Sorting.Ordered(Identity, b)
    requires a != [] && b != [] && multiset(a) == multiset(b)
    ensures a[|a| - 1] == b[|b| - 1]
  {
    var x, y := a[|a| - 1], b[|b| - 1];
    LastIsGreatest(a);
    LastIsGreatest(b);
    assert x in multiset(b) && y in multiset(a);
    assert x in b && y in a;
  }

  function Front(a: seq<int>): seq<int>
    requires a != []
  {
    a[..|a| - 1]
  }

  lemma WithoutLast(a: seq<int>)
    requires a != []
    ensures multiset(Front(a)) == multiset(a) - multiset{a[|a| - 1]}
  {
    assert a == Front(a) + [a[|a| - 1]];
  }

  lemma FrontOrdered(a: seq<int>)
    requires a != [] && Sorting.Ordered(Identity, a)
    ensures Sorting.Ordered(Identity, Front(a))
  {
    if |a| == 1 { assert Front(a) == []; }
  }

  /** Ordered sequences of the same elements are the same. */
  lemma {:induction false} OrderedUnique(a: seq<int>, b: seq<int>)
    requires Sorting.Ordered(Identity, a) && Sorting.Ordered(Identity, b) && multiset(a) == multiset(b)
    ensures a == b
    decreases |a|
  {
    hide Sorting.Ordered;
    assert |a| == |multiset(a)| == |multiset(b)| == |b|;
    if a != [] {
      var n := |a| - 1;
      SameLast(a, b);
      WithoutLast(a);
      WithoutLast(b);
      FrontOrdered(a);
      FrontOrdered(b);
      assert multiset(Front(a)) == multiset(Front(b));
      OrderedUnique(Front(a), Front(b));
      assert a == Front(a) + [a[n]] && b == Front(b) + [b[n]];
    }
  }

  lemma {:induction false} LastIsGreatest(a: seq<int>)
    requires Sorting.Ordered(Identity, a) && a != []
    ensures forall x :: x in a ==> x <= a[|a| - 1]
    decreases |a|
  {
    if |a| > 1 {
      var n := |a| - 1;
      LastIsGreatest(a[..n]);
      assert a == a[..n] + [a[n]];
    }
  }

  /** Comparing the sorted indexes with 0..n-1 tests for a permutation. */
  lemma SortedIsPermutation(indexes: seq<int>, n: nat)
    ensures Sorting.Sort(Identity, indexes) == Range(n) <==> multiset(indexes) == multiset(Range(n))
  {
    Sorting.SortOrdered(Identity, indexes);
    OrderedRange(n);
    if multiset(indexes) == multiset(Range(n)) {
      OrderedUnique(Sorting.Sort(Identity, indexes), Range(n));
    }
  }

  ghost predicate LineOk(d: DocId, line: Line) {
    line.id.Some? && line.document == d && line.index >= 0 && line.proper
  }

  ghost predicate DistinctChunks(lines: seq<Line>) {
    forall i, j :: 0 <= i < j < |lines| ==> lines[i].id != lines[j].id
  }

  /** A document's chunks: its own, each named once, indexed by a permutation of 0..n-1. */
  ghost predicate ArtifactOk(d: DocId, lines: seq<Line>) {
    && lines != [] && (forall i :: 0 <= i < |lines| ==> LineOk(d, lines[i])) && DistinctChunks(lines)
    && multiset(Indexes(lines)) == multiset(Range(|lines|))
  }

  /** Each number below the number of lines is the index of a line. */
  ghost predicate Numbered(lines: seq<Line>) {
    forall k :: 0 <= k < |lines| ==> HasIndex(lines, k)
  }

  ghost predicate HasIndex(lines: seq<Line>, k: int) {
    exists i :: 0 <= i < |lines| && lines[i].index == k
  }

  lemma {:induction false} IndexesAt(lines: seq<Line>)
    requires forall i :: 0 <= i < |lines| ==> lines[i].index >= 0
    ensures |Indexes(lines)| == |lines| && forall i :: 0 <= i < |lines| ==> Indexes(lines)[i] == lines[i].index
    decreases |lines|
  {
    if lines != [] { IndexesAt(lines[..|lines| - 1]); }
  }

  lemma {:induction false} RangeOnce(n: nat, k: int)
    ensures multiset(Range(n))[k] == if 0 <= k < n then 1 else 0
    decreases n
  {
    if n > 0 {
      RangeOnce(n - 1, k);
      assert Range(n) == Range(n - 1) + [n - 1];
    }
  }

  /** The indexes, one from each line, are a permutation of 0..n-1 exactly if each of these is the index of a line. */
  lemma PermutationNumbers(lines: seq<Line>)
    requires forall i :: 0 <= i < |lines| ==> lines[i].index >= 0
    requires multiset(Indexes(lines)) == multiset(Range(|lines|))
    ensures Numbered(lines)
  {
    var indexes := Indexes(lines);
    IndexesAt(lines);
    forall k | 0 <= k < |lines| ensures HasIndex(lines, k) {
      RangeOnce(|lines|, k);
      assert k in multiset(indexes) && k in indexes;
      var i :| 0 <= i < |indexes| && indexes[i] == k;
    }
  }

  lemma NumbersPermute(lines: seq<Line>)
    requires forall i :: 0 <= i < |lines| ==> lines[i].index >= 0
    requires Numbered(lines)
    ensures multiset(Indexes(lines)) == multiset(Range(|lines|))
  {
    var indexes, range := Indexes(lines), Range(|lines|);
    IndexesAt(lines);
    forall k ensures multiset(range)[k] <= multiset(indexes)[k] {
      RangeOnce(|lines|, k);
      if 0 <= k < |lines| {
        assert HasIndex(lines, k);
        var i :| 0 <= i < |lines| && lines[i].index == k;
        assert indexes[i] in multiset(indexes);
      }
    }
    SameSize(multiset(range), multiset(indexes));
  }

  lemma SameSize(a: multiset<int>, b: multiset<int>)
    requires a <= b && |a| == |b|
    ensures a == b
  {
    assert b == a + (b - a) && |b - a| == 0;
  }

  /** What an artifact must be: some chunks of the document, each named once, and a chunk for every index below
      their number, which leaves none for any other. */
  lemma ArtifactExactly(d: DocId, lines: seq<Line>)
    ensures ArtifactOk(d, lines) <==>
              lines != [] && (forall i :: 0 <= i < |lines| ==> LineOk(d, lines[i])) && DistinctChunks(lines)
              && Numbered(lines)
  {
    if forall i :: 0 <= i < |lines| ==> LineOk(d, lines[i]) {
      if multiset(Indexes(lines)) == multiset(Range(|lines|)) { PermutationNumbers(lines); }
      if Numbered(lines) { NumbersPermute(lines); }
    }
  }

  predicate HasChunk(lines: seq<Line>, id: ChunkKey) {
    exists i | 0 <= i < |lines| :: lines[i].id == Some(id)
  }

  /** The chunks known so far with these lines' added. */
  ghost predicate Extended(ids: map<ChunkKey, DocId>, ids': map<ChunkKey, DocId>, d: DocId, lines: seq<Line>) {
    forall id :: if HasChunk(lines, id) then id in ids' && ids'[id] == d
                 else (id in ids' <==> id in ids) && (id in ids ==> ids'[id] == ids[id])
  }

  ghost predicate Unknown(ids: map<ChunkKey, DocId>, lines: seq<Line>) {
    forall i :: 0 <= i < |lines| && lines[i].id.Some? ==> lines[i].id.value !in ids
  }

  /** Everything the lines so far were tested for. */
  ghost predicate LinesOk(d: DocId, lines: seq<Line>, ids: map<ChunkKey, DocId>) {
    (forall i :: 0 <= i < |lines| ==> LineOk(d, lines[i])) && DistinctChunks(lines) && Unknown(ids, lines)
  }

  lemma LinesNext(d: DocId, lines: seq<Line>, ids: map<ChunkKey, DocId>, ids': map<ChunkKey, DocId>, i: nat)
    requires i < |lines|
    requires LinesOk(d, lines[..i], ids) ==> Extended(ids, ids', d, lines[..i])
    ensures LinesOk(d, lines[..i + 1], ids)
            <==> LinesOk(d, lines[..i], ids) && LineOk(d, lines[i]) && lines[i].id.value !in ids'
    ensures LinesOk(d, lines[..i + 1], ids) ==> Extended(ids, ids'[lines[i].id.value := d], d, lines[..i + 1])
  {
    var before, now := lines[..i], lines[..i + 1];
    assert now == before + [lines[i]];
    if LinesOk(d, before, ids) && LineOk(d, lines[i]) {
      var id := lines[i].id.value;
      forall k | 0 <= k < i ensures before[k] == now[k] && (before[k].id == Some(id) ==> HasChunk(before, id)) {}
      if id !in ids' && !HasChunk(before, id) {
        forall x ensures HasChunk(now, x) <==> HasChunk(before, x) || x == id { HasChunkNext(before, lines[i], x); }
      } else if HasChunk(before, id) {
        var k :| 0 <= k < i && before[k].id == Some(id);
        assert now[k].id == now[i].id;
      } else {
        assert now[i].id.value in ids;
      }
    } else if LinesOk(d, now, ids) {
      assert now[i] == lines[i] && LineOk(d, now[i]);
      forall k | 0 <= k < i ensures LineOk(d, before[k]) { assert before[k] == now[k]; }
      forall j, k | 0 <= j < k < i ensures before[j].id != before[k].id { assert now[j].id != now[k].id; }
      forall k | 0 <= k < i && before[k].id.Some? ensures before[k].id.value !in ids { assert now[k] == before[k]; }
      assert LinesOk(d, before, ids);
    }
  }

  lemma HasChunkNext(lines: seq<Line>, line: Line, x: ChunkKey)
    ensures HasChunk(lines + [line], x) <==> HasChunk(lines, x) || line.id == Some(x)
  {
    if line.id == Some(x) { assert (lines + [line])[|lines|].id == Some(x); }
    if HasChunk(lines, x) {
      var k :| 0 <= k < |lines| && lines[k].id == Some(x);
      assert (lines + [line])[k].id == Some(x);
    }
  }

  /** One artifact against the chunks known so far. */
  method CheckArtifact(d: DocId, lines: seq<Line>, ids: map<ChunkKey, DocId>)
    returns (found: Findings, ids': map<ChunkKey, DocId>)
    ensures found == [] <==> ArtifactOk(d, lines) && Unknown(ids, lines)
    ensures found == [] ==> Extended(ids, ids', d, lines)
  {
    found, ids' := [], ids;
    if lines == [] { return [EmptyArtifact(d)], ids; }
    var indexes: seq<int> := [];
    for i := 0 to |lines|
      invariant found == [] <==> LinesOk(d, lines[..i], ids)
      invariant found == [] ==> Extended(ids, ids', d, lines[..i])
      invariant indexes == Indexes(lines[..i])
    {
      LinesNext(d, lines, ids, ids', i);
      assert lines[..i + 1][..i] == lines[..i];
      var line := lines[i];
      if line.id.None? {
        found := found + [MissingChunkId(d)];
      } else if line.id.value in ids' {
        found := found + [DuplicateChunk(line.id.value)];
      } else {
        ids' := ids'[line.id.value := d];
      }
      if line.document != d { found := found + [WrongDocument(d)]; }
      if line.index < 0 { found := found + [BadIndex(d)]; } else { indexes := indexes + [line.index]; }
      if !line.proper { found := found + [ImproperLine(d)]; }
    }
    assert lines[..|lines|] == lines;
    SortedIsPermutation(indexes, |lines|);
    if Sorting.Sort(Identity, indexes) != Range(|lines|) { found := found + [NonContiguous(d)]; }
  }

  ghost predicate DocumentOk(l: Local, d: DocId) {
    d in l.artifacts && ArtifactOk(d, l.artifacts[d]) && d in l.sources && l.settled(d)
  }

  /** Chunks are named once over all these documents. */
  ghost predicate Apart(l: Local, docs: set<DocId>) {
    forall d, e, id | d in docs && e in docs && d in l.artifacts && e in l.artifacts ::
      HasChunk(l.artifacts[d], id) && HasChunk(l.artifacts[e], id) ==> d == e
  }

  /** The map from chunks to documents that these documents' artifacts make up. */
  ghost predicate Gathered(l: Local, docs: set<DocId>, ids: map<ChunkKey, DocId>) {
    && (forall d, id :: d in docs && d in l.artifacts && HasChunk(l.artifacts[d], id) ==> id in ids && ids[id] == d)
    && (forall id :: id in ids ==> ids[id] in docs && ids[id] in l.artifacts && HasChunk(l.artifacts[ids[id]], id))
  }

  ghost predicate GatheredOk(l: Local, docs: set<DocId>) {
    (forall d :: d in docs ==> DocumentOk(l, d)) && Apart(l, docs)
  }

  function ActiveRows(rows: map<DocId, Row>): set<DocId> {
    set d | d in rows && rows[d].active
  }

  ghost predicate ArtifactsOk(l: Local) {
    l.artifacts.Keys <= l.rows.Keys && GatheredOk(l, ActiveRows(l.rows))
  }

  /** Chunks gathered so far are those of the documents so far, so a new document must bring new ones. */
  lemma UnknownIsApart(l: Local, docs: set<DocId>, ids: map<ChunkKey, DocId>, d: DocId)
    requires Apart(l, docs) && Gathered(l, docs, ids) && d !in docs && d in l.artifacts
    ensures Apart(l, docs + {d}) <==> Unknown(ids, l.artifacts[d])
  {
    var lines := l.artifacts[d];
    if Unknown(ids, lines) {
      forall id | HasChunk(lines, id) ensures id !in ids {
        var i :| 0 <= i < |lines| && lines[i].id == Some(id);
      }
    } else {
      var i :| 0 <= i < |lines| && lines[i].id.Some? && lines[i].id.value in ids;
      var id := lines[i].id.value;
      assert HasChunk(lines, id) && HasChunk(l.artifacts[ids[id]], id);
    }
  }

  lemma GatheredNext(l: Local, docs: set<DocId>, ids: map<ChunkKey, DocId>, ids': map<ChunkKey, DocId>, d: DocId)
    requires Gathered(l, docs, ids) && d !in docs && d in l.artifacts
    requires Unknown(ids, l.artifacts[d]) && Extended(ids, ids', d, l.artifacts[d])
    ensures Gathered(l, docs + {d}, ids')
  {
    var lines := l.artifacts[d];
    forall id | HasChunk(lines, id) ensures id !in ids {
      var i :| 0 <= i < |lines| && lines[i].id == Some(id);
    }
    forall id | id in ids'
      ensures ids'[id] in docs + {d} && ids'[id] in l.artifacts && HasChunk(l.artifacts[ids'[id]], id)
    {
      assert HasChunk(lines, id) || id in ids;
    }
    forall e, id | e in docs + {d} && e in l.artifacts && HasChunk(l.artifacts[e], id)
      ensures id in ids' && ids'[id] == e
    {
      if e != d { assert id in ids && ids[id] == e; }
    }
  }

  lemma GatherNext(l: Local, docs: set<DocId>, ids: map<ChunkKey, DocId>, ids': map<ChunkKey, DocId>, d: DocId)
    requires GatheredOk(l, docs) && Gathered(l, docs, ids) && d !in docs && d in l.artifacts
    ensures GatheredOk(l, docs + {d}) <==> DocumentOk(l, d) && Unknown(ids, l.artifacts[d])
    ensures GatheredOk(l, docs + {d}) && Extended(ids, ids', d, l.artifacts[d]) ==> Gathered(l, docs + {d}, ids')
  {
    UnknownIsApart(l, docs, ids, d);
    if Unknown(ids, l.artifacts[d]) && Extended(ids, ids', d, l.artifacts[d]) { GatheredNext(l, docs, ids, ids', d); }
  }

  /** All artifacts: no stray file, and every active document in order. */
  method CheckArtifacts(l: Local) returns (found: Findings, ids: map<ChunkKey, DocId>)
    ensures found == [] <==> ArtifactsOk(l)
    ensures found == [] ==> Gathered(l, ActiveRows(l.rows), ids)
  {
    found, ids := [], map[];
    var stray := l.artifacts.Keys - l.rows.Keys;
    if stray != {} {
      var d :| d in stray;
      found := [Unreferenced(d)];
    }
    var todo, done := ActiveRows(l.rows), {};
    while todo != {}
      invariant todo + done == ActiveRows(l.rows) && todo !! done
      invariant found == [] <==> stray == {} && GatheredOk(l, done)
      invariant found == [] ==> Gathered(l, done, ids)
      decreases todo
    {
      var d :| d in todo;
      var more;
      more, ids := CheckDocument(l, d, ids, done);
      todo, done := todo - {d}, done + {d};
      if stray != {} || found != [] { FewerOk(l, done - {d}, done); }
      found := found + more;
    }
    assert done == ActiveRows(l.rows);
    if stray == {} {
      forall d | d in l.artifacts.Keys ensures d in l.rows.Keys { assert d !in stray; }
    }
  }

  lemma FewerOk(l: Local, fewer: set<DocId>, docs: set<DocId>)
    requires fewer <= docs
    ensures GatheredOk(l, docs) ==> GatheredOk(l, fewer)
  {
  }

  method CheckDocument(l: Local, d: DocId, ids: map<ChunkKey, DocId>, ghost done: set<DocId>)
    returns (found: Findings, ids': map<ChunkKey, DocId>)
    requires d !in done
    ensures GatheredOk(l, done) && Gathered(l, done, ids) ==> (found == [] <==> GatheredOk(l, done + {d}))
    ensures GatheredOk(l, done) && Gathered(l, done, ids) && found == [] ==> Gathered(l, done + {d}, ids')
  {
    var unsourced := if d in l.sources then [] else [NoSource(d)];
    if d !in l.artifacts {
      assert !DocumentOk(l, d) && d in done + {d};
      return [MissingArtifact(d)] + unsourced, ids;
    }
    found, ids' := CheckArtifact(d, l.artifacts[d], ids);
    if GatheredOk(l, done) && Gathered(l, done, ids) { GatherNext(l, done, ids, ids', d); }
    if l.artifacts[d] != [] && d in l.sources && !l.settled(d) { found := found + [Unsettled(d)]; }
    found := found + unsourced;
  }

  // ---- The vector store ----

  ghost predicate PointOk(p: Point, ids: map<ChunkKey, DocId>) {
    p.id in ids && p.chunk == p.id && p.document == ids[p.id] && p.base
  }

  ghost predicate RemoteOk(r: Remote, ids: map<ChunkKey, DocId>) {
    && r.green && r.reported == r.exact == |ids|
    && (forall i :: 0 <= i < |r.points| ==> PointOk(r.points[i], ids))
    && forall id :: id in ids ==> exists i :: 0 <= i < |r.points| && r.points[i].id == id
  }

  /** The payloads of all points, page by page, and the ids that were seen. */
  method ScanPoints(points: seq<Point>, ids: map<ChunkKey, DocId>) returns (found: Findings, remote: set<ChunkKey>)
    ensures forall id :: id in remote <==> exists k :: 0 <= k < |points| && points[k].id == id
    ensures found == [] <==> forall k :: 0 <= k < |points| ==> PointMatches(points[k], ids)
  {
    found, remote := [], {};
    for i := 0 to |points|
      invariant forall id :: id in remote <==> exists k :: 0 <= k < i && points[k].id == id
      invariant found == [] <==> forall k :: 0 <= k < i ==> PointMatches(points[k], ids)
    {
      var p := points[i];
      remote := remote + {p.id};
      if !(p.chunk == p.id && (p.id in ids ==> p.document == ids[p.id]) && p.base) {
        found := found + [PayloadMismatch(p.id)];
      }
    }
  }

  method CheckRemote(r: Remote, ids: map<ChunkKey, DocId>) returns (found: Findings)
    ensures found == [] <==> RemoteOk(r, ids)
  {
    var remote;
    found, remote := ScanPoints(r.points, ids);
    if found == [] && remote == ids.Keys {
      forall i | 0 <= i < |r.points| ensures PointOk(r.points[i], ids) {
        assert PointMatches(r.points[i], ids) && r.points[i].id in remote;
      }
    } else if RemoteOk(r, ids) {
      forall i | 0 <= i < |r.points| ensures PointMatches(r.points[i], ids) { assert PointOk(r.points[i], ids); }
      forall id ensures id in remote <==> id in ids {
        if id in remote {
          var k :| 0 <= k < |r.points| && r.points[k].id == id;
          assert PointOk(r.points[k], ids);
        }
      }
    }
    if !r.green { found := found + [NotGreen]; }
    if r.reported != r.exact { found := found + [CountsDisagree]; }
    if r.exact != |ids| { found := found + [CountMismatch]; }
    var missing, unknown := ids.Keys - remote, remote - ids.Keys;
    if missing != {} {
      var id :| id in missing;
      found := found + [MissingPoint(id)];
    }
    if unknown != {} {
      var id :| id in unknown;
      found := found + [UnknownPoint(id)];
    }
  }

  ghost predicate PointMatches(p: Point, ids: map<ChunkKey, DocId>) {
    p.chunk == p.id && (p.id in ids ==> p.document == ids[p.id]) && p.base
  }

  // ---- The whole index ----

  /** What a valid index is. */
  ghost predicate Consistent(l: Local, r: Remote) {
    && StateOk(l.rows, l.tombstones) && ArtifactsOk(l)
    && exists ids :: Gathered(l, ActiveRows(l.rows), ids) && RemoteOk(r, ids)
  }

  lemma GatheredUnique(l: Local, docs: set<DocId>, a: map<ChunkKey, DocId>, b: map<ChunkKey, DocId>)
    requires Gathered(l, docs, a) && Gathered(l, docs, b)
    ensures a == b
  {
    forall id | id in a ensures id in b && a[id] == b[id] { assert HasChunk(l.artifacts[a[id]], id); }
    forall id | id in b ensures id in a { assert HasChunk(l.artifacts[b[id]], id); }
  }

  /** Accepts exactly the consistent indexes. */
  method Index(l: Local, r: Remote) returns (valid: bool, found: Findings)
    ensures valid == (found == []) == Consistent(l, r)
  {
    found := CheckState(l.rows, l.tombstones);
    var more, ids := CheckArtifacts(l);
    var remote := CheckRemote(r, ids);
    if more == [] {
      forall x | Gathered(l, ActiveRows(l.rows), x) ensures x == ids {
        GatheredUnique(l, ActiveRows(l.rows), x, ids);
      }
    }
    found := found + more + remote;
    valid := found == [];
  }

  ghost predicate Stored(r: Remote, d: DocId, id: ChunkKey) {
    exists i :: 0 <= i < |r.points| && r.points[i].id == id && r.points[i].document == d
  }

  lemma StoredIffGathered(r: Remote, ids: map<ChunkKey, DocId>, d: DocId, id: ChunkKey)
    requires RemoteOk(r, ids)
    ensures Stored(r, d, id) <==> id in ids && ids[id] == d
  {
    if Stored(r, d, id) {
      var i :| 0 <= i < |r.points| && r.points[i].id == id && r.points[i].document == d;
      assert PointOk(r.points[i], ids);
    }
    if id in ids && ids[id] == d {
      var i :| 0 <= i < |r.points| && r.points[i].id == id;
      assert PointOk(r.points[i], ids);
    }
  }

  lemma StoredIffInArtifact(l: Local, docs: set<DocId>, r: Remote, ids: map<ChunkKey, DocId>, d: DocId, id: ChunkKey)
    requires Gathered(l, docs, ids) && RemoteOk(r, ids)
    ensures Stored(r, d, id) <==> d in docs && d in l.artifacts && HasChunk(l.artifacts[d], id)
    ensures forall e :: Stored(r, d, id) && Stored(r, e, id) ==> d == e
  {
    StoredIffGathered(r, ids, d, id);
    forall e | Stored(r, e, id) ensures id in ids && ids[id] == e { StoredIffGathered(r, ids, e, id); }
  }

  /** Any two of the store's, the artifacts' and the state's views of a consistent index agree: the store knows
      exactly the chunks of the active documents' artifacts, each under one document, its own. */
  lemma StoreIsUnionOfArtifacts(l: Local, r: Remote, d: DocId, id: ChunkKey)
    requires Consistent(l, r)
    ensures Stored(r, d, id)
            <==> d in l.rows && l.rows[d].active && d in l.artifacts && HasChunk(l.artifacts[d], id)
    ensures forall e :: Stored(r, d, id) && Stored(r, e, id) ==> d == e
    ensures d in l.rows && l.rows[d].active <==> d in l.rows && d !in l.tombstones
  {
    var ids :| Gathered(l, ActiveRows(l.rows), ids) && RemoteOk(r, ids);
    StoredIffInArtifact(l, ActiveRows(l.rows), r, ids, d, id);
  }
}
