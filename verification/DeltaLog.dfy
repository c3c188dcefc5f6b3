/** The delta catalog and the table of consumed deltas: reading validates the chain, appending extends it, and
    the consumer's table always covers exactly a prefix of it.

    Entries are catalog lines after JSON decoding; the delta files they name are not part of this module. */
module DeltaLog {
  import opened Hashing
  import opened Wrappers

  datatype SyncId = SyncId(text: string)

  datatype Entry = Entry(sequence: int, syncId: SyncId, previous: Option<SyncId>, fromVersion: int,
                         targetVersion: int, digest: Digest, rowCount: int)

  datatype Error =
    | InvalidEntry | SequenceGap | PredecessorMismatch | VersionGap | DuplicateSync
    | ConsumedMissing | HashChanged | DeltaGap | SequenceTaken

  predicate Constructible(e: Entry) {
    && e.sequence > 0 && e.syncId.text != "" && e.fromVersion >= 0
    && e.targetVersion >= e.fromVersion && e.rowCount >= 0
  }

  /** What is wrong with line `i`, in the order the reader checks. */
  function FaultAt(lines: seq<Entry>, i: nat): Option<Error>
    requires i < |lines|
  {
    var e := lines[i];
    if !Constructible(e) then Some(InvalidEntry)
    else if e.sequence != i + 1 then Some(SequenceGap)
    else if e.previous != (if i == 0 then None else Some(lines[i - 1].syncId)) then Some(PredecessorMismatch)
    else if i > 0 && e.fromVersion != lines[i - 1].targetVersion then Some(VersionGap)
    else None
  }

  /** An unbroken chain from the first delta on. */
  ghost predicate Chain(lines: seq<Entry>) {
    && (forall i :: 0 <= i < |lines| ==> Constructible(lines[i]) && lines[i].sequence == i + 1)
    && (lines != [] ==> lines[0].previous == None)
    && (forall i :: 0 < i < |lines| ==>
          lines[i].previous == Some(lines[i - 1].syncId) && lines[i].fromVersion == lines[i - 1].targetVersion)
  }

  ghost predicate FirstFault(lines: seq<Entry>, i: nat, e: Error) {
    i < |lines| && Chain(lines[..i]) && FaultAt(lines, i) == Some(e)
  }

  lemma ChainStep(lines: seq<Entry>, i: nat)
    requires i < |lines| && Chain(lines[..i])
    ensures Chain(lines[..i + 1]) <==> FaultAt(lines, i).None?
    ensures FaultAt(lines, i).Some? ==> !Chain(lines)
  {
    var longer := lines[..i + 1];
    assert longer == lines[..i] + [lines[i]] && longer[i] == lines[i];
  }

  /** The lines are numbered from one, each names the sync before it and starts at the version where that ended,
      none goes back, the first starts at no negative version, and every line has a sync id and no negative count. */
  ghost predicate Unbroken(lines: seq<Entry>) {
    && (forall i :: 0 <= i < |lines| ==>
          lines[i].sequence == i + 1 && lines[i].syncId.text != "" && lines[i].rowCount >= 0
          && lines[i].fromVersion <= lines[i].targetVersion)
    && (lines != [] ==> lines[0].previous == None && lines[0].fromVersion >= 0)
    && (forall i :: 0 < i < |lines| ==>
          lines[i].previous == Some(lines[i - 1].syncId) && lines[i].fromVersion == lines[i - 1].targetVersion)
  }

  lemma {:induction false} ChainExactly(lines: seq<Entry>)
    ensures Chain(lines) <==> Unbroken(lines)
    decreases |lines|
  {
    if Unbroken(lines) && lines != [] {
      var n := |lines| - 1;
      assert Unbroken(lines[..n]);
      ChainExactly(lines[..n]);
      if n > 0 {
        assert Constructible(lines[..n][n - 1]) && lines[n].fromVersion == lines[n - 1].targetVersion;
      }
      forall i | 0 <= i < n ensures Constructible(lines[i]) { assert lines[..n][i] == lines[i]; }
    }
  }

  /** Which fault a line has that does not continue the chain before it: its own fields outweigh its number, the
      number the sync it names, and that the version. */
  lemma FaultNamed(lines: seq<Entry>, i: nat)
    requires i < |lines|
    ensures var e, fault := lines[i], FaultAt(lines, i);
            var last := if i > 0 then Some(lines[i - 1]) else None;
            var linked := if last.Some? then e.previous == Some(last.value.syncId) else e.previous == None;
            && (fault == Some(InvalidEntry) <==>
                  e.sequence <= 0 || e.syncId.text == "" || e.fromVersion < 0 || e.targetVersion < e.fromVersion
                  || e.rowCount < 0)
            && (fault == Some(SequenceGap) ==> e.sequence != i + 1)
            && (fault == Some(PredecessorMismatch) ==> e.sequence == i + 1 && !linked)
            && (fault == Some(VersionGap) ==>
                  e.sequence == i + 1 && linked && last.Some? && e.fromVersion != last.value.targetVersion)
            && (fault == None ==>
                  e.sequence == i + 1 && linked && (last.Some? ==> e.fromVersion == last.value.targetVersion))
            && fault in {None, Some(InvalidEntry), Some(SequenceGap), Some(PredecessorMismatch), Some(VersionGap)}
  {
  }

  /** Accepts exactly the chains; otherwise reports the first line that breaks one. */
  method ReadCatalog(lines: seq<Entry>) returns (r: Result<seq<Entry>, Error>)
    ensures r.Ok? <==> Chain(lines)
    ensures r.Ok? ==> r.value == lines
    ensures r.Err? ==> exists i :: FirstFault(lines, i, r.error)
  {
    var entries: seq<Entry> := [];
    for i := 0 to |lines|
      invariant entries == lines[..i] && Chain(entries)
    {
      var e := lines[i];
      var error := None;
      if !Constructible(e) {
        error := Some(InvalidEntry);
      } else if e.sequence != |entries| + 1 {
        error := Some(SequenceGap);
      } else if e.previous != (if entries != [] then Some(entries[|entries| - 1].syncId) else None) {
        error := Some(PredecessorMismatch);
      } else if entries != [] && e.fromVersion != entries[|entries| - 1].targetVersion {
        error := Some(VersionGap);
      }
      assert error == FaultAt(lines, i);
      ChainStep(lines, i);
      if error.Some? {
        assert FirstFault(lines, i, error.value);
        return Err(error.value);
      }
      entries := entries + [e];
    }
    assert lines[..|lines|] == lines;
    return Ok(entries);
  }

  ghost predicate DistinctSyncs(lines: seq<Entry>) {
    forall i, j :: 0 <= i < j < |lines| ==> lines[i].syncId != lines[j].syncId
  }

  function NextEntry(lines: seq<Entry>, syncId: SyncId, fromVersion: int, targetVersion: int, digest: Digest,
                     rowCount: int): Entry
  {
    Entry(|lines| + 1, syncId, if lines != [] then Some(lines[|lines| - 1].syncId) else None,
          fromVersion, targetVersion, digest, rowCount)
  }

  /** Appending keeps the catalog readable exactly when the delta starts at the version where the last one
      ended. Nothing checks this when the delta is staged. */
  lemma AppendReadable(lines: seq<Entry>, e: Entry)
    requires Chain(lines) && Constructible(e)
    requires e == NextEntry(lines, e.syncId, e.fromVersion, e.targetVersion, e.digest, e.rowCount)
    ensures Chain(lines + [e]) <==> lines == [] || e.fromVersion == lines[|lines| - 1].targetVersion
  {
    var longer := lines + [e];
    if lines != [] {
      assert longer[|lines|] == e && longer[|lines| - 1] == lines[|lines| - 1];
    }
  }

  /** Along a chain the versions never go back. */
  lemma {:induction false} VersionsGrow(lines: seq<Entry>, i: nat, j: nat)
    requires Chain(lines) && i < j < |lines|
    ensures lines[i].targetVersion <= lines[j].fromVersion <= lines[j].targetVersion
    decreases j
  {
    if i < j - 1 {
      VersionsGrow(lines, i, j - 1);
    }
  }

  // ---- The consumer ----

  datatype Mark = Mark(sequence: int, digest: Digest)

  type Consumed = map<SyncId, Mark>

  /** The consumed rows are those of the first `k` entries. */
  ghost predicate ConsumedExactly(lines: seq<Entry>, consumed: Consumed, k: nat) {
    && k <= |lines|
    && (forall id :: id in consumed ==> exists i :: 0 <= i < k && lines[i].syncId == id)
    && (forall i :: 0 <= i < k ==>
          lines[i].syncId in consumed && consumed[lines[i].syncId] == Mark(i + 1, lines[i].digest))
  }

  ghost predicate HighestSequence(consumed: Consumed, last: SyncId) {
    last in consumed && forall id :: id in consumed ==> consumed[id].sequence <= consumed[last].sequence
  }

  lemma StillConsumed(lines: seq<Entry>, e: Entry, consumed: Consumed, k: nat)
    requires ConsumedExactly(lines, consumed, k)
    ensures ConsumedExactly(lines + [e], consumed, k)
  {
    forall id | id in consumed ensures exists i :: 0 <= i < k && (lines + [e])[i].syncId == id {
      var i :| 0 <= i < k && lines[i].syncId == id;
      assert (lines + [e])[i].syncId == id;
    }
  }

  /** The consumed row of the highest sequence. */
  method LastConsumed(consumed: Consumed) returns (last: Option<SyncId>)
    ensures last.None? <==> consumed == map[]
    ensures last.Some? ==> HighestSequence(consumed, last.value)
  {
    last := None;
    var todo := consumed.Keys;
    while todo != {}
      invariant todo <= consumed.Keys
      invariant last.None? ==> todo == consumed.Keys
      invariant last.Some? ==> last.value in consumed
      invariant last.Some? ==>
                  forall id :: id in consumed && id !in todo ==> consumed[id].sequence <= consumed[last.value].sequence
      decreases todo
    {
      var id :| id in todo;
      todo := todo - {id};
      if last.None? || consumed[id].sequence > consumed[last.value].sequence { last := Some(id); }
    }
  }

  /** The entries with this sequence number and those from it on, by filtering. */
  method Filter(entries: seq<Entry>, sequence: int) returns (matching: seq<Entry>, available: seq<Entry>)
    requires Chain(entries)
    ensures matching == if 1 <= sequence <= |entries| then [entries[sequence - 1]] else []
    ensures available == if sequence < 0 then entries else if sequence <= |entries| then entries[sequence..] else []
  {
    matching, available := [], [];
    for i := 0 to |entries|
      invariant matching == if 1 <= sequence <= i then [entries[sequence - 1]] else []
      invariant available == if sequence < 0 then entries[..i] else if sequence <= i then entries[sequence..i] else []
    {
      if entries[i].sequence == sequence { matching := matching + [entries[i]]; }
      if entries[i].sequence >= sequence + 1 { available := available + [entries[i]]; }
    }
  }

  ghost predicate UniqueSequences(consumed: Consumed) {
    forall a, b :: a in consumed && b in consumed && consumed[a].sequence == consumed[b].sequence ==> a == b
  }

  /** The batches still to be consumed, for any table with unique sequences and any catalog: those after the last one
      consumed, if the catalog still has that in its place and with the same digest. */
  method PendingDeltas(lines: seq<Entry>, consumed: Consumed) returns (r: Result<seq<Entry>, Error>)
    requires UniqueSequences(consumed)
    ensures !Chain(lines) ==> r.Err? && exists i :: FirstFault(lines, i, r.error)
    ensures Chain(lines) && consumed == map[] ==> r == Ok(lines)
    ensures forall last :: Chain(lines) && HighestSequence(consumed, last) ==>
              var mark := consumed[last];
              var there := 1 <= mark.sequence <= |lines| && lines[mark.sequence - 1].syncId == last;
              && (r == Err(ConsumedMissing) <==> !there)
              && (r == Err(HashChanged) <==> there && lines[mark.sequence - 1].digest != mark.digest)
              && (r.Ok? <==> there && lines[mark.sequence - 1].digest == mark.digest)
              && (r.Ok? ==> r.value == lines[mark.sequence..])
  {
    r := ReadCatalog(lines);
    if r.Err? { return; }
    var entries := r.value;
    var last := LastConsumed(consumed);
    var sequence := if last.Some? then consumed[last.value].sequence else 0;
    var matching, available := Filter(entries, sequence);
    if last.Some? {
      if matching == [] || matching[0].syncId != last.value { return Err(ConsumedMissing); }
      if matching[0].digest != consumed[last.value].digest { return Err(HashChanged); }
    }
    if available != [] && available[0].sequence != sequence + 1 { return Err(DeltaGap); }
    return Ok(available);
  }

  /** Every row is that of an entry, under its number. */
  lemma RowPlace(lines: seq<Entry>, consumed: Consumed, k: nat, id: SyncId)
    requires ConsumedExactly(lines, consumed, k) && id in consumed
    ensures k <= |lines| && 1 <= consumed[id].sequence <= k && lines[consumed[id].sequence - 1].syncId == id
  {
    var i :| 0 <= i < k && lines[i].syncId == id;
  }

  lemma LastRow(lines: seq<Entry>, consumed: Consumed, k: nat)
    requires ConsumedExactly(lines, consumed, k)
    ensures k <= |lines|
    ensures k > 0 ==> lines[k - 1].syncId in consumed && consumed[lines[k - 1].syncId] == Mark(k, lines[k - 1].digest)
    ensures k == 0 ==> consumed == map[]
  {
  }

  /** When the table covers exactly `k` entries of the log, the last of them is its highest row. */
  lemma LastIsK(lines: seq<Entry>, consumed: Consumed, k: nat)
    requires ConsumedExactly(lines, consumed, k)
    ensures k <= |lines| && UniqueSequences(consumed) && (k == 0 ==> consumed == map[])
    ensures k > 0 ==>
              HighestSequence(consumed, lines[k - 1].syncId)
              && consumed[lines[k - 1].syncId] == Mark(k, lines[k - 1].digest)
  {
    hide ConsumedExactly;
    LastRow(lines, consumed, k);
    forall id | id in consumed
      ensures 1 <= consumed[id].sequence <= k && lines[consumed[id].sequence - 1].syncId == id
    {
      RowPlace(lines, consumed, k, id);
    }
  }

  /** The upsert of a consumed row; sequences are unique in the table. */
  function Marked(consumed: Consumed, e: Entry): Result<Consumed, Error> {
    if exists id | id in consumed :: id != e.syncId && consumed[id].sequence == e.sequence then Err(SequenceTaken)
    else Ok(consumed[e.syncId := Mark(e.sequence, e.digest)])
  }

  /** A mark is refused exactly if another sync has the sequence; otherwise it is the row of its sync, and the only
      one that changes. */
  lemma MarkedExactly(consumed: Consumed, e: Entry)
    ensures var r := Marked(consumed, e);
            && (r.Ok? <==> forall id :: id in consumed && consumed[id].sequence == e.sequence ==> id == e.syncId)
            && (r.Ok? ==>
                  && r.value.Keys == consumed.Keys + {e.syncId}
                  && r.value[e.syncId].sequence == e.sequence && r.value[e.syncId].digest == e.digest
                  && forall id :: id in consumed && id != e.syncId ==> r.value[id] == consumed[id])
  {
  }

  lemma MarkedNext(lines: seq<Entry>, consumed: Consumed, k: nat)
    requires ConsumedExactly(lines, consumed, k) && DistinctSyncs(lines) && Chain(lines) && k < |lines|
    ensures Marked(consumed, lines[k]).Ok? && ConsumedExactly(lines, Marked(consumed, lines[k]).value, k + 1)
  {
    forall id | id in consumed ensures consumed[id].sequence < k + 1 {
      var i :| 0 <= i < k && lines[i].syncId == id;
    }
  }

  lemma MarkedAgain(lines: seq<Entry>, consumed: Consumed, k: nat, i: nat)
    requires ConsumedExactly(lines, consumed, k) && DistinctSyncs(lines) && Chain(lines) && i < k
    ensures Marked(consumed, lines[i]) == Ok(consumed)
  {
    forall id | id in consumed && id != lines[i].syncId ensures consumed[id].sequence != i + 1 {
      var j :| 0 <= j < k && lines[j].syncId == id;
    }
    assert consumed[lines[i].syncId := Mark(i + 1, lines[i].digest)] == consumed;
  }

  class DeltaConsumer {
    var catalog: seq<Entry>
    var consumed: Consumed
    ghost var progress: nat

    constructor ()
      ensures Valid() && catalog == [] && progress == 0
    {
      catalog, consumed, progress := [], map[], 0;
    }

    /** Exactly the first `progress` entries are consumed. */
    ghost predicate Valid()
      reads this
    {
      ConsumedExactly(catalog, consumed, progress) && DistinctSyncs(catalog)
    }

    /** Publishes a delta. An unreadable catalog, a known sync id or an impossible entry is refused. */
    method Publish(syncId: SyncId, fromVersion: int, targetVersion: int, digest: Digest, rowCount: int)
      returns (r: Result<Entry, Error>)
      requires Valid()
      modifies this`catalog
      ensures Valid()
      ensures r.Err? ==> catalog == old(catalog)
      ensures r.Ok? ==> catalog == old(catalog) + [r.value]
      ensures r.Ok? <==>
                && Chain(old(catalog)) && syncId.text != "" && 0 <= fromVersion <= targetVersion && rowCount >= 0
                && forall x :: x in old(catalog) ==> x.syncId != syncId
      ensures r.Ok? ==> r.value.syncId == syncId && r.value.digest == digest && r.value.rowCount == rowCount
      ensures r.Ok? ==> r.value.fromVersion == fromVersion && r.value.targetVersion == targetVersion
      ensures Chain(old(catalog)) && r.Err? ==>
                r.error == if exists x :: x in old(catalog) && x.syncId == syncId then DuplicateSync else InvalidEntry
      ensures var e := NextEntry(old(catalog), syncId, fromVersion, targetVersion, digest, rowCount);
              && (r.Ok? <==> Chain(old(catalog)) && Constructible(e)
                             && forall x :: x in old(catalog) ==> x.syncId != syncId)
              && (r.Ok? ==> r.value == e
                            && (Chain(catalog) <==> e.sequence == 1
                                                    || fromVersion == old(catalog)[e.sequence - 2].targetVersion))
    {
      var entries := ReadCatalog(catalog);
      if entries.Err? { return Err(entries.error); }
      for i := 0 to |catalog|
        invariant forall j :: 0 <= j < i ==> catalog[j].syncId != syncId
      {
        if catalog[i].syncId == syncId { return Err(DuplicateSync); }
      }
      var e := NextEntry(catalog, syncId, fromVersion, targetVersion, digest, rowCount);
      if !Constructible(e) { return Err(InvalidEntry); }
      AppendReadable(catalog, e);
      StillConsumed(catalog, e, consumed, progress);
      catalog := catalog + [e];
      return Ok(e);
    }

    /** The batches still to be consumed are the rest of the log. */
    method Pending() returns (r: Result<seq<Entry>, Error>)
      requires Valid()
      ensures r.Ok? <==> Chain(catalog)
      ensures r.Ok? ==> r.value == catalog[progress..]
      ensures r.Err? ==> exists i :: FirstFault(catalog, i, r.error)
    {
      LastIsK(catalog, consumed, progress);
      r := PendingDeltas(catalog, consumed);
    }

    /** Marks the next entry consumed. */
    method MarkNext(entry: Entry)
      requires Valid() && Chain(catalog) && progress < |catalog| && entry == catalog[progress]
      modifies this`consumed, this`progress
      ensures Valid() && progress == old(progress) + 1
    {
      MarkedNext(catalog, consumed, progress);
      consumed := Marked(consumed, entry).value;
      progress := progress + 1;
    }

    /** An incremental run that is cut off after `stop` consumed marks. */
    method Incremental(stop: nat) returns (r: Result<seq<Entry>, Error>)
      requires Valid()
      modifies this`consumed, this`progress
      ensures Valid()
      ensures r.Ok? <==> Chain(catalog)
      ensures r.Ok? ==> r.value == catalog[old(progress)..]
      ensures progress == if r.Err? then old(progress)
                          else if stop <= |r.value| then old(progress) + stop else |catalog|
    {
      r := Pending();
      if r.Err? { return; }
      var i := 0;
      while i < |r.value| && i < stop
        invariant Valid() && 0 <= i <= |r.value| && i <= stop && progress == old(progress) + i
      {
        MarkNext(r.value[i]);
        i := i + 1;
      }
    }

    /** After a successful full run every entry is marked in one transaction. */
    method MarkAll() returns (r: Result<nat, Error>)
      requires Valid()
      modifies this`consumed, this`progress
      ensures Valid()
      ensures r.Ok? <==> Chain(catalog)
      ensures progress == if r.Ok? then |catalog| else old(progress)
    {
      var entries := ReadCatalog(catalog);
      if entries.Err? { return Err(entries.error); }
      var table := consumed;
      for i := 0 to |catalog|
        invariant progress == old(progress) && consumed == old(consumed)
        invariant ConsumedExactly(catalog, table, if i < progress then progress else i)
      {
        if i < progress {
          MarkedAgain(catalog, table, progress, i);
        } else {
          MarkedNext(catalog, table, i);
        }
        table := Marked(table, catalog[i]).value;
      }
      consumed, progress := table, |catalog|;
      return Ok(|catalog|);
    }
  }

  datatype Command =
    | Publish(syncId: SyncId, fromVersion: int, targetVersion: int, digest: Digest, rowCount: int)
    | Incremental(stop: nat)
    | MarkAll

  /** Whatever is published and consumed, and wherever runs are cut off, the table covers a prefix of the log
      and the next run gets exactly the rest. Progress is never lost. */
  method History(commands: seq<Command>) returns (o: DeltaConsumer, pending: Result<seq<Entry>, Error>)
    ensures o.Valid()
    ensures pending.Ok? <==> Chain(o.catalog)
    ensures pending.Ok? ==> pending.value == o.catalog[o.progress..]
  {
    o := new DeltaConsumer();
    for i := 0 to |commands|
      invariant o.Valid()
    {
      match commands[i]
      case Publish(syncId, fromVersion, targetVersion, digest, rowCount) =>
        var published := o.Publish(syncId, fromVersion, targetVersion, digest, rowCount);
      case Incremental(stop) =>
        var run := o.Incremental(stop);
      case MarkAll =>
        var marked := o.MarkAll();
    }
    pending := o.Pending();
  }
}
