/** The bookkeeping of attempts and retries over every run of the task store. */
module TaskHistory {
  import opened Wrappers
  import opened Tasks

  datatype Event =
    | Begin(task: TaskId, now: int, reuseCompleted: bool, staleAfter: int)
    | Finish(task: TaskId, status: Status)
    | Acquire(key: LockKey, task: TaskId, now: int, ttl: int)
    | Release(key: LockKey, task: TaskId)
    | ForceRelease(key: LockKey)
    | Renew(keys: set<LockKey>, task: TaskId, now: int, ttl: int)

  function Settle(db: Db, r: Result<Db, Error>): Db {
    if r.Ok? then r.value else db
  }

  ghost function Exec(db: Db, e: Event): Db {
    match e
    case Begin(t, now, reuse, staleAfter) => if staleAfter <= 0 then db else Begun(db, t, now, reuse, staleAfter).0
    case Finish(t, status) => Settle(db, Finished(db, t, status))
    case Acquire(k, t, now, ttl) => Settle(db, Acquired(db, k, t, now, ttl))
    case Release(k, t) => Released(db, k, t)
    case ForceRelease(k) => db.(locks := db.locks - {k})
    case Renew(keys, t, now, ttl) => Settle(db, Renewed(db, keys, t, now, ttl))
  }

  ghost function Run(db: Db, events: seq<Event>): Db
    decreases |events|
  {
    if events == [] then db else Run(Exec(db, events[0]), events[1..])
  }

  const EMPTY := Db(map[], map[], map[])

  /** Attempts are numbered from one without gaps, and only the last of them can be running. */
  ghost predicate Numbered(attempts: seq<Attempt>) {
    && (forall i :: 0 <= i < |attempts| ==> attempts[i].number == i + 1)
    && (forall i :: 0 <= i < |attempts| - 1 ==> attempts[i].status != Running)
  }

  ghost predicate HistoryOk(db: Db) {
    db.tasks.Keys == db.attempts.Keys && forall t :: t in db.tasks ==> TaskOk(db.tasks[t], db.attempts[t])
  }

  /** A task runs exactly when its last attempt does. */
  ghost predicate TaskOk(task: Task, attempts: seq<Attempt>) {
    && attempts != [] && Numbered(attempts)
    && (task.status == Running <==> attempts[|attempts| - 1].status == Running)
  }

  lemma {:induction false} MaxOfNumbered(attempts: seq<Attempt>)
    requires Numbered(attempts)
    ensures MaxNumber(attempts) == |attempts|
    decreases |attempts|
  {
    if attempts != [] {
      MaxOfNumbered(attempts[..|attempts| - 1]);
    }
  }

  /** Closing touches at most the last attempt, and leaves none running. */
  lemma ClosedNumbered(attempts: seq<Attempt>, status: Status)
    requires Numbered(attempts) && attempts != [] && status != Running
    ensures var n := |attempts|;
            var last := attempts[n - 1];
            var closed := attempts[n - 1 := if last.status == Running then last.(status := status) else last];
            CloseLatest(attempts, status) == closed && CloseRunning(attempts, status) == closed
  {
    var n := |attempts|;
    CloseLatestAt(attempts, status, if attempts[n - 1].status == Running then n else 0);
  }

  lemma RestartKeepsHistory(db: Db, t: TaskId, now: int)
    requires HistoryOk(db) && (t in db.tasks ==> db.tasks[t].status != Running)
    ensures HistoryOk(Restarted(db, t, now))
  {
    MaxOfNumbered(AttemptsOf(db, t));
  }

  lemma RecoveryKeepsHistory(db: Db, t: TaskId, now: int, staleAfter: int)
    requires HistoryOk(db)
    ensures HistoryOk(StaleRecovered(db, t, now, staleAfter))
  {
    if Stale(db, t, now, staleAfter) {
      ClosedNumbered(db.attempts[t], Failed);
    }
  }

  lemma FinishKeepsHistory(db: Db, t: TaskId, status: Status)
    requires HistoryOk(db)
    ensures HistoryOk(Settle(db, Finished(db, t, status)))
  {
    if t in db.tasks && status !in {Pending, Running} {
      var closed := CloseLatest(db.attempts[t], status);
      assert TaskOk(db.tasks[t], db.attempts[t]);
      ClosedNumbered(db.attempts[t], status);
      assert TaskOk(db.tasks[t].(status := status), closed);
    }
  }

  lemma StepKeepsHistory(db: Db, e: Event)
    requires HistoryOk(db)
    ensures HistoryOk(Exec(db, e))
  {
    match e
    case Begin(t, now, reuse, staleAfter) =>
      if staleAfter > 0 {
        RecoveryKeepsHistory(db, t, now, staleAfter);
        var recovered := StaleRecovered(db, t, now, staleAfter);
        if !Refused(recovered, t, reuse) {
          RestartKeepsHistory(recovered, t, now);
        }
      }
    case Finish(t, status) => FinishKeepsHistory(db, t, status);
    case _ =>
  }

  /** A begin that enters a new attempt of a task whose last one ended failed or partial, or was found stale. */
  ghost predicate EntersRetry(db: Db, e: Event, t: TaskId) {
    && e.Begin? && e.task == t && e.staleAfter > 0
    && t in db.tasks && db.tasks[t].status in {Failed, Partial, Running}
    && Begun(db, t, e.now, e.reuseCompleted, e.staleAfter).1.required
  }

  ghost predicate EntersAttempt(db: Db, e: Event, t: TaskId) {
    && e.Begin? && e.task == t && e.staleAfter > 0
    && Begun(db, t, e.now, e.reuseCompleted, e.staleAfter).1.required
  }

  ghost function Retries(db: Db, events: seq<Event>, t: TaskId): nat
    decreases |events|
  {
    if events == [] then 0
    else (if EntersRetry(db, events[0], t) then 1 else 0) + Retries(Exec(db, events[0]), events[1..], t)
  }

  ghost function Attempts(db: Db, events: seq<Event>, t: TaskId): nat
    decreases |events|
  {
    if events == [] then 0
    else (if EntersAttempt(db, events[0], t) then 1 else 0) + Attempts(Exec(db, events[0]), events[1..], t)
  }

  function RetryCount(db: Db, t: TaskId): nat {
    if t in db.tasks then db.tasks[t].retryCount else 0
  }

  lemma BeginCounts(db: Db, u: TaskId, now: int, reuse: bool, staleAfter: int, t: TaskId)
    requires HistoryOk(db)
    ensures var e := Event.Begin(u, now, reuse, staleAfter);
            && RetryCount(Exec(db, e), t) == RetryCount(db, t) + (if EntersRetry(db, e, t) then 1 else 0)
            && |AttemptsOf(Exec(db, e), t)| == |AttemptsOf(db, t)| + if EntersAttempt(db, e, t) then 1 else 0
  {
    if staleAfter > 0 {
      var recovered := StaleRecovered(db, u, now, staleAfter);
      assert RetryCount(recovered, t) == RetryCount(db, t) && |AttemptsOf(recovered, t)| == |AttemptsOf(db, t)|;
      assert u in recovered.tasks <==> u in db.tasks;
    }
  }

  lemma StepCounts(db: Db, e: Event, t: TaskId)
    requires HistoryOk(db)
    ensures RetryCount(Exec(db, e), t) == RetryCount(db, t) + if EntersRetry(db, e, t) then 1 else 0
    ensures |AttemptsOf(Exec(db, e), t)| == |AttemptsOf(db, t)| + if EntersAttempt(db, e, t) then 1 else 0
  {
    match e
    case Begin(u, now, reuse, staleAfter) => BeginCounts(db, u, now, reuse, staleAfter, t);
    case Finish(u, status) =>
      if u in db.tasks && status !in {Pending, Running} { ClosedNumbered(db.attempts[u], status); }
    case _ =>
  }

  lemma {:induction false} RunCounts(db: Db, events: seq<Event>, t: TaskId)
    requires HistoryOk(db)
    ensures HistoryOk(Run(db, events))
    ensures RetryCount(Run(db, events), t) == RetryCount(db, t) + Retries(db, events, t)
    ensures |AttemptsOf(Run(db, events), t)| == |AttemptsOf(db, t)| + Attempts(db, events, t)
    decreases |events|
  {
    if events != [] {
      StepKeepsHistory(db, events[0]);
      StepCounts(db, events[0], t);
      RunCounts(Exec(db, events[0]), events[1..], t);
    }
  }

  /** After every run: a task is running exactly when its highest-numbered attempt is, no other attempt is
      running, numbers are 1..n, n is the number of begins told to execute, and the retry count is the number
      of those entered from a failed, partial or stale attempt. */
  lemma History(events: seq<Event>, t: TaskId)
    ensures var db := Run(EMPTY, events);
            && HistoryOk(db)
            && RetryCount(db, t) == Retries(EMPTY, events, t)
            && |AttemptsOf(db, t)| == Attempts(EMPTY, events, t)
            && (t in db.tasks <==> Attempts(EMPTY, events, t) > 0)
  {
    RunCounts(EMPTY, events, t);
  }
}
