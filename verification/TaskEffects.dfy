/** What each transaction of the task store does to the tables, in terms of the tables before it. */
module TaskEffects {
  import opened Wrappers
  import opened Tasks

  /** Some lock of the task has not expired. */
  ghost predicate Guarded(db: Db, t: TaskId, now: int) {
    exists k :: k in db.locks && db.locks[k].owner == t && now < db.locks[k].expiresAt
  }

  /** The task says it runs, but started too long ago and holds nothing. */
  ghost predicate Abandoned(db: Db, t: TaskId, now: int, staleAfter: int) {
    t in db.tasks && db.tasks[t].status == Running && db.tasks[t].startedAt + staleAfter < now && !Guarded(db, t, now)
  }

  /** A begin executes exactly if the task is new, has ended otherwise than completed for reuse, or is abandoned;
      in every other case nothing changes. */
  lemma BeginDecides(db: Db, t: TaskId, now: int, reuseCompleted: bool, staleAfter: int)
    ensures var (db', execution) := Begun(db, t, now, reuseCompleted, staleAfter);
            && (execution.required <==>
                  || t !in db.tasks
                  || Abandoned(db, t, now, staleAfter)
                  || (db.tasks[t].status != Running && !(db.tasks[t].status == Completed && reuseCompleted)))
            && (execution.reused <==> t in db.tasks)
            && (!execution.required ==> db' == db)
  {
    assert HasLiveLock(db, t, now) <==> Guarded(db, t, now);
  }

  /** What a begin that executes writes: the task runs from now, one retry more if it had failed, was partial or
      was abandoned; one new running attempt of the next number, and an abandoned one closed as failed; the locks
      of an abandoned task are gone. Nothing is written about any other task. */
  lemma BeginWrites(db: Db, t: TaskId, now: int, reuseCompleted: bool, staleAfter: int)
    requires Begun(db, t, now, reuseCompleted, staleAfter).1.required
    ensures var db' := Begun(db, t, now, reuseCompleted, staleAfter).0;
            var before, after := AttemptsOf(db, t), AttemptsOf(db', t);
            var abandoned := Abandoned(db, t, now, staleAfter);
            && db'.tasks.Keys == db.tasks.Keys + {t}
            && (forall u :: u in db.tasks && u != t ==> db'.tasks[u] == db.tasks[u])
            && db'.tasks[t].status == Running && db'.tasks[t].startedAt == now
            && db'.tasks[t].retryCount
               == (if t in db.tasks then db.tasks[t].retryCount else 0)
                  + (if t in db.tasks && (abandoned || db.tasks[t].status in {Failed, Partial}) then 1 else 0)
            && (forall u :: u != t ==> AttemptsOf(db', u) == AttemptsOf(db, u))
            && |after| == |before| + 1 && after[|before|].status == Running
            && (forall i :: 0 <= i < |before| ==>
                  && after[i].number == before[i].number
                  && after[i].status == if abandoned && before[i].status == Running then Failed else before[i].status)
            && (forall k :: k in db'.locks <==> k in db.locks && !(abandoned && db.locks[k].owner == t))
            && (forall k :: k in db'.locks ==> db'.locks[k] == db.locks[k])
  {
    assert HasLiveLock(db, t, now) <==> Guarded(db, t, now);
  }

  /** The new attempt has the number after the highest so far. */
  lemma BeginNumbers(db: Db, t: TaskId, now: int, reuseCompleted: bool, staleAfter: int)
    requires Begun(db, t, now, reuseCompleted, staleAfter).1.required
    ensures var db' := Begun(db, t, now, reuseCompleted, staleAfter).0;
            var before, after := AttemptsOf(db, t), AttemptsOf(db', t);
            && after != []
            && (forall a :: a in before ==> a.number < after[|after| - 1].number)
            && (after[|after| - 1].number == 1 || exists a :: a in before && a.number + 1 == after[|after| - 1].number)
  {
    var closed := AttemptsOf(StaleRecovered(db, t, now, staleAfter), t);
    var before := AttemptsOf(db, t);
    MaxIsGreatest(closed);
    forall a | a in before ensures a.number <= MaxNumber(closed) {
      var i :| 0 <= i < |before| && before[i] == a;
      assert closed[i] in closed && closed[i].number == a.number;
    }
    if a :| a in closed && a.number == MaxNumber(closed) {
      var i :| 0 <= i < |closed| && closed[i] == a;
      assert before[i] in before;
    }
  }

  lemma {:induction false} MaxIsGreatest(attempts: seq<Attempt>)
    ensures forall a :: a in attempts ==> a.number <= MaxNumber(attempts)
    ensures MaxNumber(attempts) == 0 || exists a :: a in attempts && a.number == MaxNumber(attempts)
    decreases |attempts|
  {
    if attempts != [] {
      var n := |attempts| - 1;
      MaxIsGreatest(attempts[..n]);
      assert attempts == attempts[..n] + [attempts[n]];
      assert attempts[n] in attempts;
      if a :| a in attempts[..n] && a.number == MaxNumber(attempts[..n]) { assert a in attempts; }
    }
  }

  /** A task is finished exactly if it exists and the status is one that ends it. Then the task has that status, of
      its attempts only the last running one gets it too, and nothing else changes. */
  lemma FinishWrites(db: Db, t: TaskId, status: Status)
    ensures var r := Finished(db, t, status);
            && (r.Ok? <==> status != Pending && status != Running && t in db.tasks)
            && (r == Err(InvalidArgument) <==> status == Pending || status == Running)
            && (r.Ok? ==>
                  var db' := r.value;
                  && db'.tasks.Keys == db.tasks.Keys && db'.locks == db.locks
                  && (forall u :: u in db.tasks && u != t ==> db'.tasks[u] == db.tasks[u])
                  && db'.tasks[t].status == status && db'.tasks[t].startedAt == db.tasks[t].startedAt
                  && db'.tasks[t].retryCount == db.tasks[t].retryCount
                  && (forall u :: u != t ==> AttemptsOf(db', u) == AttemptsOf(db, u))
                  && LastRunningClosed(AttemptsOf(db, t), AttemptsOf(db', t), status))
  {
    var before := AttemptsOf(db, t);
    CloseLatestAt(before, status, LastRunning(before));
  }

  /** One more than the index of the last running attempt. */
  function LastRunning(attempts: seq<Attempt>): (i: nat)
    ensures i <= |attempts| && (i > 0 ==> attempts[i - 1].status == Running)
    ensures forall j :: i <= j < |attempts| ==> attempts[j].status != Running
    decreases |attempts|
  {
    var n := |attempts|;
    if n == 0 || attempts[n - 1].status == Running then n else LastRunning(attempts[..n - 1])
  }

  ghost predicate LastRunningClosed(before: seq<Attempt>, after: seq<Attempt>, status: Status) {
    && |after| == |before|
    && forall i :: 0 <= i < |before| ==>
         && after[i].number == before[i].number
         && after[i].status == if i + 1 == LastRunning(before) then status else before[i].status
  }

  /** A key is acquired exactly if no unexpired row has it. Then it has a row of the task for the given time, and of
      the other rows the unexpired ones are left. A refusal changes nothing. */
  lemma AcquireWrites(db: Db, k: LockKey, t: TaskId, now: int, ttl: int)
    ensures var r := Acquired(db, k, t, now, ttl);
            && (r.Ok? <==> !(k in db.locks && now < db.locks[k].expiresAt))
            && (r.Err? ==> r == Err(LockHeld))
            && (r.Ok? ==>
                  var db' := r.value;
                  && db'.tasks == db.tasks && db'.attempts == db.attempts
                  && k in db'.locks && db'.locks[k].owner == t && db'.locks[k].expiresAt == now + ttl
                  && (forall x :: x != k ==> (x in db'.locks <==> x in db.locks && now < db.locks[x].expiresAt))
                  && (forall x :: x != k && x in db'.locks ==> db'.locks[x] == db.locks[x]))
  {
  }

  /** A release by the owner removes the row of the key and no other; a release by anyone else changes nothing. */
  lemma ReleaseWrites(db: Db, k: LockKey, t: TaskId)
    ensures var db' := Released(db, k, t);
            && db'.tasks == db.tasks && db'.attempts == db.attempts
            && (k in db.locks && db.locks[k].owner == t ==> k !in db'.locks)
            && (forall x :: x in db'.locks <==> x in db.locks && !(x == k && db.locks[k].owner == t))
            && (forall x :: x in db'.locks ==> db'.locks[x] == db.locks[x])
  {
  }

  /** A released key can be acquired at once, by any task and for any time. */
  lemma ReleasedKeyIsFree(db: Db, k: LockKey, t: TaskId, next: TaskId, now: int, ttl: int)
    requires k in db.locks && db.locks[k].owner == t
    ensures Acquired(Released(db, k, t), k, next, now, ttl).Ok?
  {
    ReleaseWrites(db, k, t);
    AcquireWrites(Released(db, k, t), k, next, now, ttl);
  }

  /** Acquiring a key and releasing it again leaves the rows that had not expired. */
  lemma AcquireThenRelease(db: Db, k: LockKey, t: TaskId, now: int, ttl: int)
    requires Acquired(db, k, t, now, ttl).Ok?
    ensures var db' := Released(Acquired(db, k, t, now, ttl).value, k, t);
            && db'.tasks == db.tasks && db'.attempts == db.attempts
            && (forall x :: x in db'.locks <==> x in db.locks && now < db.locks[x].expiresAt)
            && (forall x :: x in db'.locks ==> db'.locks[x] == db.locks[x])
  {
    AcquireWrites(db, k, t, now, ttl);
    ReleaseWrites(Acquired(db, k, t, now, ttl).value, k, t);
  }

  /** A renewal succeeds exactly if the time is positive and every key has an unexpired row of the task. Then all of
      them are extended, and no other row changes. */
  lemma RenewWrites(db: Db, keys: set<LockKey>, t: TaskId, now: int, ttl: int)
    ensures var r := Renewed(db, keys, t, now, ttl);
            && (r.Ok? <==>
                  ttl > 0
                  && forall k :: k in keys ==> k in db.locks && db.locks[k].owner == t && now < db.locks[k].expiresAt)
            && (r == Err(InvalidArgument) <==> ttl <= 0)
            && (r.Ok? ==>
                  var db' := r.value;
                  && db'.tasks == db.tasks && db'.attempts == db.attempts && db'.locks.Keys == db.locks.Keys
                  && (forall k :: k in keys ==>
                        k in db'.locks && db'.locks[k].owner == t && db'.locks[k].expiresAt == now + ttl)
                  && (forall k :: k in db.locks && k !in keys ==> db'.locks[k] == db.locks[k]))
  {
    if ttl > 0 && forall k :: k in keys ==> k in db.locks && db.locks[k].owner == t && now < db.locks[k].expiresAt {
      forall k | k in keys ensures Holds(db, k, t, now) {}
    } else if Renewed(db, keys, t, now, ttl).Ok? {
      forall k | k in keys ensures k in db.locks && db.locks[k].owner == t && now < db.locks[k].expiresAt {
        assert Holds(db, k, t, now);
      }
    }
  }

  /** The scenario of two tasks in turn: the second gets the key right after the first has released it. */
  method HandOver(store: TaskStore, k: LockKey, a: TaskId, b: TaskId, now: int, ttl: int)
    returns (first: Result<(), Error>, second: Result<(), Error>)
    requires k !in store.locks && a != b && ttl > 0
    modifies store
    ensures first == Ok(()) && second == Ok(())
    ensures k in store.locks && store.locks[k] == Lock(b, now + 1 + ttl)
  {
    AcquireWrites(store.State(), k, a, now, ttl);
    first := store.Acquire(k, a, now, ttl);
    ReleaseWrites(store.State(), k, a);
    var _ := store.Release(k, Some(a), false);
    AcquireWrites(store.State(), k, b, now + 1, ttl);
    second := store.Acquire(k, b, now + 1, ttl);
  }
}
