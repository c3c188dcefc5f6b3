/** Fanning documents out to parse workers and collecting exactly one result for each of them.

    Documents and results are identified by integers in the place of document ids. The digest that spreads
    documents over workers is an arbitrary function. */
module ParseWorkers {
  import opened Sorting

  datatype Document = Document(id: int, content: string)

  datatype Result = Result(id: int, ok: bool, worker: int)

  const COORDINATOR := -1

  // ---- Partitions ----

  /** Where a document goes: a function of its id alone. */
  type Place = int -> nat

  function StablePartition(digest: int -> nat, workers: nat): (place: Place)
    requires workers > 0
    ensures Within(place, workers)
    ensures forall id :: place(id) == digest(id) % workers
  {
    id => digest(id) % workers
  }

  ghost predicate Within(place: Place, workers: nat) {
    forall id :: place(id) < workers
  }

  /** The documents of worker `p`. */
  function Assigned(place: Place, documents: seq<Document>, p: nat): seq<Document>
    decreases |documents|
  {
    if documents == [] then []
    else
      var n := |documents| - 1;
      var front := Assigned(place, documents[..n], p);
      if place(documents[n].id) == p then front + [documents[n]] else front
  }

  function ById(d: Document): int {
    d.id
  }

  method PartitionDocuments(place: Place, documents: seq<Document>, workers: nat)
    returns (partitions: seq<seq<Document>>)
    requires Within(place, workers)
    ensures |partitions| == workers && Partitioned(place, Sort(ById, documents), partitions)
  {
    partitions := seq(workers, _ => []);
    var sorted := Sort(ById, documents);
    for i := 0 to |sorted|
      invariant |partitions| == workers && Partitioned(place, sorted[..i], partitions)
    {
      assert sorted[..i + 1][..i] == sorted[..i];
      var p := place(sorted[i].id);
      partitions := partitions[p := partitions[p] + [sorted[i]]];
    }
    assert sorted[..|sorted|] == sorted;
  }

  ghost predicate Partitioned(place: Place, documents: seq<Document>, partitions: seq<seq<Document>>) {
    && Within(place, |partitions|)
    && forall p :: 0 <= p < |partitions| ==> partitions[p] == Assigned(place, documents, p)
  }

  /** How often a document is assigned to the first `k` workers. */
  function TimesAssigned(place: Place, documents: seq<Document>, k: nat, d: Document): nat {
    if k == 0 then 0
    else TimesAssigned(place, documents, k - 1, d) + multiset(Assigned(place, documents, k - 1))[d]
  }

  lemma {:induction false} AssignedTimes(place: Place, documents: seq<Document>, p: nat, d: Document)
    ensures multiset(Assigned(place, documents, p))[d] == if place(d.id) == p then multiset(documents)[d] else 0
    decreases |documents|
  {
    if documents != [] {
      var n := |documents| - 1;
      AssignedTimes(place, documents[..n], p, d);
      assert documents == documents[..n] + [documents[n]];
    }
  }

  lemma {:induction false} FirstWorkers(place: Place, documents: seq<Document>, k: nat, d: Document)
    ensures TimesAssigned(place, documents, k, d) == if place(d.id) < k then multiset(documents)[d] else 0
    decreases k
  {
    if k > 0 {
      FirstWorkers(place, documents, k - 1, d);
      AssignedTimes(place, documents, k - 1, d);
    }
  }

  /** No document is lost and none is given to two workers. */
  lemma PartitionsCover(place: Place, documents: seq<Document>, workers: nat)
    requires Within(place, workers)
    ensures forall d :: TimesAssigned(place, documents, workers, d) == multiset(documents)[d]
    ensures forall d :: d in documents ==> d in Assigned(place, documents, place(d.id))
  {
    forall d ensures TimesAssigned(place, documents, workers, d) == multiset(documents)[d] {
      FirstWorkers(place, documents, workers, d);
    }
    forall d | d in documents ensures d in Assigned(place, documents, place(d.id)) {
      AssignedExactly(place, documents, place(d.id), d);
    }
  }

  /** A worker's documents are those of its partition. */
  lemma {:induction false} AssignedExactly(place: Place, documents: seq<Document>, p: nat, d: Document)
    ensures d in Assigned(place, documents, p) <==> d in documents && place(d.id) == p
    decreases |documents|
  {
    if documents != [] {
      var n := |documents| - 1;
      assert documents == documents[..n] + [documents[n]];
      AssignedExactly(place, documents[..n], p, d);
    }
  }

  /** They come in id order. */
  lemma {:induction false} AssignedOrdered(place: Place, documents: seq<Document>, p: nat)
    requires Ordered(ById, documents)
    ensures Ordered(ById, Assigned(place, documents, p))
    ensures var a := Assigned(place, documents, p);
            a != [] ==> documents != [] && a[|a| - 1].id <= documents[|documents| - 1].id
    decreases |documents|
  {
    if documents != [] {
      var n := |documents| - 1;
      AssignedOrdered(place, documents[..n], p);
      var a := Assigned(place, documents[..n], p);
      assert (a + [documents[n]])[..|a|] == a;
    }
  }

  // ---- Counting by id ----

  function ByResult(r: Result): int {
    r.id
  }

  /** How many documents have this id. */
  function Copies(documents: seq<Document>, id: int): nat
    decreases |documents|
  {
    if documents == [] then 0
    else Copies(documents[..|documents| - 1], id) + if documents[|documents| - 1].id == id then 1 else 0
  }

  /** How many results are about this id. */
  function Count(results: seq<Result>, id: int): nat
    decreases |results|
  {
    if results == [] then 0
    else Count(results[..|results| - 1], id) + if results[|results| - 1].id == id then 1 else 0
  }

  ghost predicate DistinctDocuments(documents: seq<Document>) {
    forall id :: Copies(documents, id) <= 1
  }

  lemma CopiesNext(documents: seq<Document>, d: Document, id: int)
    ensures Copies(documents + [d], id) == Copies(documents, id) + if d.id == id then 1 else 0
  {
    assert (documents + [d])[..|documents|] == documents;
  }

  lemma CountNext(results: seq<Result>, r: Result, id: int)
    ensures Count(results + [r], id) == Count(results, id) + if r.id == id then 1 else 0
  {
    assert (results + [r])[..|results|] == results;
  }

  lemma {:induction false} CountAppend(a: seq<Result>, b: seq<Result>, id: int)
    ensures Count(a + b, id) == Count(a, id) + Count(b, id)
    decreases |b|
  {
    if b == [] {
      assert a + b == a;
    } else {
      var n := |b| - 1;
      assert a + b == (a + b[..n]) + [b[n]];
      CountAppend(a, b[..n], id);
      CountNext(a + b[..n], b[n], id);
    }
  }

  lemma {:induction false} CountPrefix(results: seq<Result>, delivery: seq<Result>, id: int)
    requires results <= delivery
    ensures Count(results, id) <= Count(delivery, id)
  {
    assert delivery == results + delivery[|results|..];
    CountAppend(results, delivery[|results|..], id);
  }

  lemma {:induction false} Counted(results: seq<Result>, id: int)
    ensures Count(results, id) > 0 <==> exists r :: r in results && r.id == id
    decreases |results|
  {
    if results != [] {
      var n := |results| - 1;
      Counted(results[..n], id);
      assert results == results[..n] + [results[n]];
      if r :| r in results && r.id == id { assert r in results[..n] || r == results[n]; }
    }
  }

  lemma {:induction false} InsertCount(sorted: seq<Result>, x: Result, id: int)
    ensures Count(Insert(ByResult, sorted, x), id) == Count(sorted, id) + if x.id == id then 1 else 0
    decreases |sorted|
  {
    if sorted == [] {
      CountNext([], x, id);
      assert [] + [x] == [x];
    } else {
      var n := |sorted| - 1;
      if sorted[n].id <= x.id {
        CountNext(sorted, x, id);
      } else {
        InsertCount(sorted[..n], x, id);
        CountNext(Insert(ByResult, sorted[..n], x), sorted[n], id);
      }
    }
  }

  lemma {:induction false} SortCount(s: seq<Result>, id: int)
    ensures Count(Sort(ByResult, s), id) == Count(s, id)
    decreases |s|
  {
    if s != [] {
      SortCount(s[..|s| - 1], id);
      InsertCount(Sort(ByResult, s[..|s| - 1]), s[|s| - 1], id);
    }
  }

  lemma {:induction false} InsertCopies(sorted: seq<Document>, x: Document, id: int)
    ensures Copies(Insert(ById, sorted, x), id) == Copies(sorted, id) + if x.id == id then 1 else 0
    decreases |sorted|
  {
    if sorted == [] {
      CopiesNext([], x, id);
      assert [] + [x] == [x];
    } else {
      var n := |sorted| - 1;
      if sorted[n].id <= x.id {
        CopiesNext(sorted, x, id);
      } else {
        InsertCopies(sorted[..n], x, id);
        CopiesNext(Insert(ById, sorted[..n], x), sorted[n], id);
      }
    }
  }

  lemma {:induction false} SortCopies(s: seq<Document>, id: int)
    ensures Copies(Sort(ById, s), id) == Copies(s, id)
    decreases |s|
  {
    if s != [] {
      SortCopies(s[..|s| - 1], id);
      InsertCopies(Sort(ById, s[..|s| - 1]), s[|s| - 1], id);
    }
  }

  lemma {:induction false} AssignedCopies(place: Place, documents: seq<Document>, p: nat, id: int)
    ensures Copies(Assigned(place, documents, p), id) == if place(id) == p then Copies(documents, id) else 0
    decreases |documents|
  {
    if documents != [] {
      var n := |documents| - 1;
      AssignedCopies(place, documents[..n], p, id);
      CopiesNext(Assigned(place, documents[..n], p), documents[n], id);
    }
  }

  lemma {:induction false} PrefixCopies(documents: seq<Document>, k: nat, id: int)
    requires k <= |documents|
    ensures Copies(documents[..k], id) <= Copies(documents, id)
    decreases |documents|
  {
    if k < |documents| {
      var n := |documents| - 1;
      PrefixCopies(documents[..n], k, id);
      assert documents[..n][..k] == documents[..k];
    } else {
      assert documents[..k] == documents;
    }
  }

  // ---- The queue ----

  /** How often worker `p` gets to put a result in the queue. */
  function Turns(p: nat, order: seq<nat>): nat
    decreases |order|
  {
    if order == [] then 0
    else Turns(p, order[..|order| - 1]) + if order[|order| - 1] == p then 1 else 0
  }

  /** How many documents of its partition a worker has reported after these turns. */
  function Reported(partition: seq<Document>, turns: nat): (k: nat)
    ensures k <= |partition|
  {
    if turns < |partition| then turns else |partition|
  }

  function ResultOf(parses: int -> bool, d: Document, p: nat): Result {
    Result(d.id, parses(d.id), p)
  }

  /** What the workers have put in the queue after these turns. A worker reports the documents of its partition
      in their order; one that gets no more turns has exited or died. `parses` says what can be parsed. */
  function Delivered(partitions: seq<seq<Document>>, parses: int -> bool, order: seq<nat>): seq<Result>
    decreases |order|
  {
    if order == [] then []
    else
      var n := |order| - 1;
      var p, front := order[n], Delivered(partitions, parses, order[..n]);
      var k := Turns(p, order[..n]);
      if p < |partitions| && k < |partitions[p]| then front + [ResultOf(parses, partitions[p][k], p)] else front
  }

  /** One more turn of the worker an id belongs to. */
  lemma ReportedNext(part: seq<Document>, turns: nat, id: int)
    ensures Copies(part[..Reported(part, turns + 1)], id)
            == Copies(part[..Reported(part, turns)], id)
               + if turns < |part| && part[turns].id == id then 1 else 0
  {
    if turns < |part| {
      assert part[..turns + 1] == part[..turns] + [part[turns]];
      CopiesNext(part[..turns], part[turns], id);
    }
  }

  /** A result for an id is in the queue exactly if the worker it belongs to has reported it. */
  lemma {:induction false} DeliveredExactly(place: Place, documents: seq<Document>, partitions: seq<seq<Document>>,
                                            parses: int -> bool, order: seq<nat>, id: int)
    requires Partitioned(place, documents, partitions)
    ensures var part := partitions[place(id)];
            Count(Delivered(partitions, parses, order), id)
            == Copies(part[..Reported(part, Turns(place(id), order))], id)
    decreases |order|
  {
    hide Copies, Count, Reported;
    var part := partitions[place(id)];
    if order == [] {
      NothingReported(part, id);
    } else {
      var n := |order| - 1;
      DeliveredExactly(place, documents, partitions, parses, order[..n], id);
      var p, k := order[n], Turns(order[n], order[..n]);
      if p == place(id) { ReportedNext(part, k, id); }
      if p < |partitions| && k < |partitions[p]| {
        CountNext(Delivered(partitions, parses, order[..n]), ResultOf(parses, partitions[p][k], p), id);
        AssignedExactly(place, documents, p, partitions[p][k]);
      }
    }
  }

  lemma NothingReported(part: seq<Document>, id: int)
    ensures Copies(part[..Reported(part, 0)], id) == 0 && Count([], id) == 0
  {
  }

  /** However the workers' turns interleave, the queue holds no more results than documents for any id, and once
      every worker has had as many turns as documents, exactly as many. */
  lemma DeliveredOnce(place: Place, documents: seq<Document>, partitions: seq<seq<Document>>, parses: int -> bool,
                      order: seq<nat>, id: int)
    requires Partitioned(place, documents, partitions)
    ensures Count(Delivered(partitions, parses, order), id) <= Copies(documents, id)
    ensures Turns(place(id), order) >= |partitions[place(id)]| ==>
              Count(Delivered(partitions, parses, order), id) == Copies(documents, id)
  {
    var part := partitions[place(id)];
    DeliveredExactly(place, documents, partitions, parses, order, id);
    PrefixCopies(part, Reported(part, Turns(place(id), order)), id);
    AssignedCopies(place, documents, place(id), id);
    assert part[..|part|] == part;
  }

  /** A worker's own result about a document of its partition. */
  ghost predicate Genuine(place: Place, parses: int -> bool, r: Result) {
    r.worker == place(r.id) && r.ok == parses(r.id)
  }

  lemma {:induction false} DeliveredGenuine(place: Place, documents: seq<Document>, partitions: seq<seq<Document>>,
                                            parses: int -> bool, order: seq<nat>)
    requires Partitioned(place, documents, partitions)
    ensures forall r :: r in Delivered(partitions, parses, order) ==> Genuine(place, parses, r)
    decreases |order|
  {
    if order != [] {
      var n := |order| - 1;
      DeliveredGenuine(place, documents, partitions, parses, order[..n]);
      var p, k := order[n], Turns(order[n], order[..n]);
      if p < |partitions| && k < |partitions[p]| {
        AssignedExactly(place, documents, p, partitions[p][k]);
      }
    }
  }

  // ---- Collecting results ----

  /** What the coordinator sees at one turn: whether a worker lives, and whether a result arrives in time. */
  datatype Poll = Poll(alive: bool, arrives: bool)

  predicate Expected(results: seq<Result>, documents: seq<Document>) {
    |results| < |documents|
  }

  ghost predicate AllArrive(polls: seq<Poll>) {
    forall i :: 0 <= i < |polls| ==> polls[i].alive && polls[i].arrives
  }

  /** Polls while results are missing and a worker lives, then takes what is still in the queue. Gets some
      prefix of the delivery order, and all of it if the queue is emptied. */
  method Collect(documents: seq<Document>, delivery: seq<Result>, polls: seq<Poll>, left: nat)
    returns (results: seq<Result>)
    ensures results <= delivery && (results != [] ==> |results| <= |documents|)
    ensures left >= |delivery| && |delivery| <= |documents| ==> results == delivery
    ensures AllArrive(polls) && |polls| + left >= |delivery| && |delivery| <= |documents| ==> results == delivery
  {
    results := [];
    var i := 0;
    while i < |polls| && Expected(results, documents) && polls[i].alive
      invariant results <= delivery && (results != [] ==> |results| <= |documents|)
      invariant i <= |polls| && (AllArrive(polls) ==> |results| == if i < |delivery| then i else |delivery|)
    {
      if polls[i].arrives && |results| < |delivery| { results := results + [delivery[|results|]]; }
      i := i + 1;
    }
    var more := left;
    while Expected(results, documents) && more > 0 && |results| < |delivery|
      invariant results <= delivery && (results != [] ==> |results| <= |documents|)
      invariant |results| + more >= left
      invariant AllArrive(polls) && |documents| > |results| ==>
                  |results| + more >= |polls| + left || results == delivery
      decreases more
    {
      results := results + [delivery[|results|]];
      more := more - 1;
    }
  }

  function Failed(d: Document): Result {
    Result(d.id, false, COORDINATOR)
  }

  /** Failures stand in for the documents nobody reported. */
  function StandIns(documents: seq<Document>, arrived: seq<Result>): seq<Result>
    decreases |documents|
  {
    if documents == [] then []
    else
      var n := |documents| - 1;
      var front := StandIns(documents[..n], arrived);
      if Count(arrived, documents[n].id) > 0 then front else front + [Failed(documents[n])]
  }

  /** The stand-ins are one for each document that was not reported. */
  lemma {:induction false} StandInsComplete(documents: seq<Document>, arrived: seq<Result>, id: int)
    ensures Count(StandIns(documents, arrived), id) == if Count(arrived, id) > 0 then 0 else Copies(documents, id)
    decreases |documents|
  {
    if documents != [] {
      var n := |documents| - 1;
      StandInsComplete(documents[..n], arrived, id);
      CountNext(StandIns(documents[..n], arrived), Failed(documents[n]), id);
    }
  }

  /** A failure in the place of a result that never arrived. */
  ghost predicate StandsIn(r: Result, arrived: seq<Result>) {
    !r.ok && r.worker == COORDINATOR && Count(arrived, r.id) == 0
  }

  lemma {:induction false} StandInsFailed(documents: seq<Document>, arrived: seq<Result>)
    ensures forall r :: r in StandIns(documents, arrived) ==> StandsIn(r, arrived)
    decreases |documents|
  {
    if documents != [] { StandInsFailed(documents[..|documents| - 1], arrived); }
  }

  lemma OneForEach(documents: seq<Document>, delivery: seq<Result>, arrived: seq<Result>, id: int)
    requires Copies(documents, id) <= 1 && Count(delivery, id) <= Copies(documents, id) && arrived <= delivery
    ensures Count(Sort(ByResult, arrived + StandIns(documents, arrived)), id) == Copies(documents, id)
  {
    var standIns := StandIns(documents, arrived);
    CountPrefix(arrived, delivery, id);
    SortCount(arrived + standIns, id);
    CountAppend(arrived, standIns, id);
    StandInsComplete(documents, arrived, id);
  }

  lemma EachAccountedFor(documents: seq<Document>, arrived: seq<Result>)
    ensures var results := Sort(ByResult, arrived + StandIns(documents, arrived));
            && Ordered(ByResult, results) && multiset(arrived) <= multiset(results)
            && forall r :: r in results ==> r in arrived || StandsIn(r, arrived)
  {
    var both := arrived + StandIns(documents, arrived);
    SortOrdered(ByResult, both);
    StandInsFailed(documents, arrived);
    forall r | r in Sort(ByResult, both) ensures r in arrived || StandsIn(r, arrived) {
      assert r in multiset(Sort(ByResult, both)) && r in both;
    }
  }

  /** The distribution, the queue and the collection of results by a coordinator and its workers. */
  method CollectFromWorkers(place: Place, workers: nat, documents: seq<Document>, parses: int -> bool,
                            order: seq<nat>, polls: seq<Poll>, left: nat)
    returns (arrived: seq<Result>, ghost delivery: seq<Result>)
    requires Within(place, workers) && DistinctDocuments(documents)
    ensures arrived <= delivery && forall id :: Count(delivery, id) <= Copies(documents, id)
    ensures forall r :: r in arrived ==> Genuine(place, parses, r)
    ensures left >= |documents| && (forall p :: 0 <= p < workers ==> Turns(p, order) >= |documents|) ==>
              forall id :: Count(arrived, id) == Copies(documents, id)
  {
    var partitions := PartitionDocuments(place, documents, workers);
    ghost var sorted := Sort(ById, documents);
    var queue := Delivered(partitions, parses, order);
    DeliveredGenuine(place, sorted, partitions, parses, order);
    arrived := Collect(documents, queue, polls, left);
    delivery := queue;
    forall id ensures Count(delivery, id) <= Copies(documents, id) {
      DeliveredOnce(place, sorted, partitions, parses, order, id);
      SortCopies(documents, id);
    }
    DeliveredShorter(delivery, documents);
    if left >= |documents| && forall p :: 0 <= p < workers ==> Turns(p, order) >= |documents| {
      forall id ensures Count(arrived, id) == Copies(documents, id) {
        DeliveredOnce(place, sorted, partitions, parses, order, id);
        SortCopies(documents, id);
        AssignedShorter(place, documents, place(id));
      }
    }
  }

  lemma {:induction false} AssignedShorter(place: Place, documents: seq<Document>, p: nat)
    ensures |Assigned(place, Sort(ById, documents), p)| <= |documents|
  {
    SortOrdered(ById, documents);
    assert |multiset(Sort(ById, documents))| == |multiset(documents)|;
    NoLonger(place, Sort(ById, documents), p);
  }

  lemma {:induction false} NoLonger(place: Place, documents: seq<Document>, p: nat)
    ensures |Assigned(place, documents, p)| <= |documents|
    decreases |documents|
  {
    if documents != [] { NoLonger(place, documents[..|documents| - 1], p); }
  }

  /** No more results than documents by id, so no more in all. */
  lemma {:induction false} DeliveredShorter(results: seq<Result>, documents: seq<Document>)
    requires forall id :: Count(results, id) <= Copies(documents, id)
    ensures |results| <= |documents|
    decreases |results|
  {
    if results != [] {
      var n := |results| - 1;
      var r := results[n];
      var i := Find(documents, r.id);
      var rest := documents[..i] + documents[i + 1..];
      forall id ensures Count(results[..n], id) <= Copies(rest, id) {
        RemoveCopies(documents, i, id);
        assert Count(results, id) <= Copies(documents, id);
      }
      DeliveredShorter(results[..n], rest);
    }
  }

  lemma {:induction false} Find(documents: seq<Document>, id: int) returns (i: nat)
    requires Copies(documents, id) > 0
    ensures i < |documents| && documents[i].id == id
    decreases |documents|
  {
    i := |documents| - 1;
    if documents[i].id != id { i := Find(documents[..i], id); }
  }

  lemma {:induction false} RemoveCopies(documents: seq<Document>, i: nat, id: int)
    requires i < |documents|
    ensures Copies(documents[..i] + documents[i + 1..], id)
            == Copies(documents, id) - if documents[i].id == id then 1 else 0
    decreases |documents|
  {
    var n := |documents| - 1;
    if i == n {
      assert documents[..i] + documents[i + 1..] == documents[..n];
    } else {
      var front := documents[..n];
      RemoveCopies(front, i, id);
      assert front[..i] == documents[..i];
      assert documents[..i] + documents[i + 1..] == (front[..i] + front[i + 1..]) + [documents[n]];
      CopiesNext(front[..i] + front[i + 1..], documents[n], id);
    }
  }

  /** Whatever the interleaving of the workers, wherever they exit and however many of their results arrive: the
      caller gets exactly one result for each document, in id order; each is the result its worker gave, or a
      failure of the coordinator for a document whose result did not arrive. If every worker reports all its
      documents and the queue is emptied, all results are the workers'. */
  method RunParseWorkers(digest: int -> nat, workers: nat, documents: seq<Document>, parses: int -> bool,
                         order: seq<nat>, polls: seq<Poll>, left: nat)
    returns (results: seq<Result>, ghost arrived: seq<Result>)
    requires workers > 0 && DistinctDocuments(documents)
    ensures forall id :: Count(results, id) == Copies(documents, id)
    ensures Ordered(ByResult, results) && multiset(arrived) <= multiset(results)
    ensures forall r :: r in arrived ==> Genuine(StablePartition(digest, workers), parses, r)
    ensures forall r :: r in results ==> r in arrived || StandsIn(r, arrived)
    ensures left >= |documents| && (forall p :: 0 <= p < workers ==> Turns(p, order) >= |documents|) ==>
              forall r :: r in results ==> r in arrived
  {
    if documents == [] { return [], []; }
    hide StablePartition, Genuine, Ordered, StandIns, Sort;
    var place := StablePartition(digest, workers);
    var collected, delivery := CollectFromWorkers(place, workers, documents, parses, order, polls, left);
    arrived := collected;
    results := Sort(ByResult, collected + StandIns(documents, collected));
    EachAccountedFor(documents, arrived);
    forall id ensures Count(results, id) == Copies(documents, id) { OneForEach(documents, delivery, arrived, id); }
    forall r | r in results && Count(arrived, r.id) == Copies(documents, r.id) ensures r in arrived {
      Counted(results, r.id);
    }
  }
}
