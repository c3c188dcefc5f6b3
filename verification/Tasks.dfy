/** Durable tasks with idempotency keys, numbered attempts and expiring locks.

    A task is created once for each idempotency key and never changes its key, so the key stands for the
    random task identifier. Clocks are integers; each method is one database transaction. */
module Tasks {
  import opened Wrappers

  datatype TaskId = TaskId(key: string)
  datatype LockKey = LockKey(name: string)

  datatype Status = Pending | Running | Completed | Partial | Failed | Cancelled

  datatype Task = Task(status: Status, startedAt: int, retryCount: nat)

  datatype Attempt = Attempt(number: nat, status: Status)

  datatype Lock = Lock(owner: TaskId, expiresAt: int)

  datatype Db = Db(tasks: map<TaskId, Task>, attempts: map<TaskId, seq<Attempt>>, locks: map<LockKey, Lock>)

  datatype Error = InvalidArgument | UnknownTask | LockHeld | LeaseLost

  /** What `begin` tells its caller: whether to execute, and whether the task row existed before. */
  datatype Execution = Execution(required: bool, reused: bool)

  function AttemptsOf(db: Db, t: TaskId): seq<Attempt> {
    if t in db.attempts then db.attempts[t] else []
  }

  ghost predicate HasLiveLock(db: Db, t: TaskId, now: int) {
    exists k :: k in db.locks && db.locks[k].owner == t && db.locks[k].expiresAt > now
  }

  ghost predicate Stale(db: Db, t: TaskId, now: int, staleAfter: int) {
    && t in db.tasks && db.tasks[t].status == Running
    && now - db.tasks[t].startedAt > staleAfter
    && !HasLiveLock(db, t, now)
  }

  function CloseRunning(attempts: seq<Attempt>, status: Status): seq<Attempt> {
    seq(|attempts|, i requires 0 <= i < |attempts| =>
      if attempts[i].status == Running then attempts[i].(status := status) else attempts[i])
  }

  function WithoutLocksOf(locks: map<LockKey, Lock>, t: TaskId): map<LockKey, Lock> {
    map k | k in locks && locks[k].owner != t :: locks[k]
  }

  /** A task whose executor vanished is failed, its attempt closed and its locks dropped. */
  ghost function StaleRecovered(db: Db, t: TaskId, now: int, staleAfter: int): Db {
    if Stale(db, t, now, staleAfter) then
      Db(db.tasks[t := db.tasks[t].(status := Failed)],
         db.attempts[t := CloseRunning(AttemptsOf(db, t), Failed)],
         WithoutLocksOf(db.locks, t))
    else db
  }

  function MaxNumber(attempts: seq<Attempt>): nat {
    if attempts == [] then 0
    else
      var rest := MaxNumber(attempts[..|attempts| - 1]);
      var last := attempts[|attempts| - 1].number;
      if last > rest then last else rest
  }

  function Restarted(db: Db, t: TaskId, now: int): Db {
    var retries := if t in db.tasks then db.tasks[t].retryCount else 0;
    var retry := if t in db.tasks && db.tasks[t].status in {Failed, Partial} then 1 else 0;
    Db(db.tasks[t := Task(Running, now, retries + retry)],
       db.attempts[t := AttemptsOf(db, t) + [Attempt(MaxNumber(AttemptsOf(db, t)) + 1, Running)]],
       db.locks)
  }

  predicate Refused(db: Db, t: TaskId, reuseCompleted: bool) {
    t in db.tasks && (db.tasks[t].status == Running || (db.tasks[t].status == Completed && reuseCompleted))
  }

  ghost function Begun(db: Db, t: TaskId, now: int, reuseCompleted: bool, staleAfter: int): (Db, Execution) {
    var recovered := StaleRecovered(db, t, now, staleAfter);
    if Refused(recovered, t, reuseCompleted) then (recovered, Execution(false, true))
    else (Restarted(recovered, t, now), Execution(true, t in db.tasks))
  }

  function CloseLatest(attempts: seq<Attempt>, status: Status): seq<Attempt>
    decreases |attempts|
  {
    if attempts == [] then []
    else
      var n := |attempts| - 1;
      if attempts[n].status == Running then attempts[n := attempts[n].(status := status)]
      else CloseLatest(attempts[..n], status) + [attempts[n]]
  }

  function Finished(db: Db, t: TaskId, status: Status): Result<Db, Error> {
    if status in {Pending, Running} then Err(InvalidArgument)
    else if t !in db.tasks then Err(UnknownTask)
    else Ok(db.(tasks := db.tasks[t := db.tasks[t].(status := status)],
                attempts := db.attempts[t := CloseLatest(AttemptsOf(db, t), status)]))
  }

  function Unexpired(locks: map<LockKey, Lock>, now: int): map<LockKey, Lock> {
    map k | k in locks && locks[k].expiresAt > now :: locks[k]
  }

  /** A refused acquisition rolls its transaction back, purge included. */
  function Acquired(db: Db, k: LockKey, t: TaskId, now: int, ttl: int): Result<Db, Error> {
    var live := Unexpired(db.locks, now);
    if k in live then Err(LockHeld) else Ok(db.(locks := live[k := Lock(t, now + ttl)]))
  }

  function Released(db: Db, k: LockKey, t: TaskId): Db {
    if k in db.locks && db.locks[k].owner == t then db.(locks := db.locks - {k}) else db
  }

  predicate Holds(db: Db, k: LockKey, t: TaskId, now: int) {
    k in db.locks && db.locks[k].owner == t && db.locks[k].expiresAt > now
  }

  function Renewed(db: Db, keys: set<LockKey>, t: TaskId, now: int, ttl: int): Result<Db, Error> {
    if ttl <= 0 then Err(InvalidArgument)
    else if forall k | k in keys :: Holds(db, k, t, now) then
      Ok(db.(locks := map k | k in db.locks ::
        if k in keys then Lock(t, now + ttl) else db.locks[k]))
    else Err(LeaseLost)
  }

  /** What closing does when only settled attempts follow the first `i`. */
  lemma {:induction false} CloseLatestAt(attempts: seq<Attempt>, status: Status, i: nat)
    requires i <= |attempts| && (i > 0 ==> attempts[i - 1].status == Running)
    requires forall j :: i <= j < |attempts| ==> attempts[j].status != Running
    ensures CloseLatest(attempts, status)
            == if i == 0 then attempts else attempts[i - 1 := attempts[i - 1].(status := status)]
    decreases |attempts|
  {
    var n := |attempts| - 1;
    if i <= n {
      CloseLatestAt(attempts[..n], status, i);
    }
  }

  /** Searches from the highest number down for the running attempt and closes it. */
  method ClosedRunning(attempts: seq<Attempt>, status: Status) returns (closed: seq<Attempt>)
    ensures closed == CloseLatest(attempts, status)
  {
    var i := |attempts|;
    while i > 0 && attempts[i - 1].status != Running
      invariant 0 <= i <= |attempts|
      invariant forall j :: i <= j < |attempts| ==> attempts[j].status != Running
    {
      i := i - 1;
    }
    CloseLatestAt(attempts, status, i);
    closed := if i == 0 then attempts else attempts[i - 1 := attempts[i - 1].(status := status)];
  }

  class TaskStore {
    var tasks: map<TaskId, Task>
    var attempts: map<TaskId, seq<Attempt>>
    var locks: map<LockKey, Lock>

    constructor ()
      ensures State() == Db(map[], map[], map[])
    {
      tasks, attempts, locks := map[], map[], map[];
    }

    function State(): Db
      reads this
    {
      Db(tasks, attempts, locks)
    }

    method HasLive(t: TaskId, now: int) returns (live: bool)
      ensures live == HasLiveLock(State(), t, now)
    {
      var todo := locks.Keys;
      live := false;
      while todo != {} && !live
        invariant todo <= locks.Keys
        invariant live ==> HasLiveLock(State(), t, now)
        invariant forall k :: k in locks && k !in todo && !live ==> !Holds(State(), k, t, now)
        decreases |todo|
      {
        var k :| k in todo;
        todo := todo - {k};
        live := locks[k].owner == t && locks[k].expiresAt > now;
      }
      assert !live ==> forall k :: k in locks ==> !Holds(State(), k, t, now);
    }

    method NextNumber(t: TaskId) returns (n: nat)
      ensures n == MaxNumber(AttemptsOf(State(), t)) + 1
    {
      var rows := if t in attempts then attempts[t] else [];
      n := 0;
      for i := 0 to |rows|
        invariant n == MaxNumber(rows[..i])
      {
        assert rows[..i + 1][..i] == rows[..i];
        if rows[i].number > n { n := rows[i].number; }
      }
      assert rows[..|rows|] == rows;
      n := n + 1;
    }

    /** The stale-recovery part of `Begin`: fails a running task that is too old and holds no live lock. */
    method RecoverStale(t: TaskId, now: int, staleAfter: int)
      modifies this
      ensures State() == StaleRecovered(old(State()), t, now, staleAfter)
    {
      if t !in tasks || tasks[t].status != Running || now - tasks[t].startedAt <= staleAfter { return; }
      var live := HasLive(t, now);
      if !live {
        tasks := tasks[t := tasks[t].(status := Failed)];
        attempts := attempts[t := CloseRunning(if t in attempts then attempts[t] else [], Failed)];
        locks := map k | k in locks && locks[k].owner != t :: locks[k];
      }
    }

    method Begin(t: TaskId, now: int, reuseCompleted: bool, staleAfter: int) returns (r: Result<Execution, Error>)
      modifies this
      ensures staleAfter <= 0 ==> r == Err(InvalidArgument) && State() == old(State())
      ensures staleAfter > 0 ==>
                var (db, execution) := Begun(old(State()), t, now, reuseCompleted, staleAfter);
                State() == db && r == Ok(execution)
    {
      if staleAfter <= 0 { return Err(InvalidArgument); }
      RecoverStale(t, now, staleAfter);
      var existing := t in tasks;
      if existing && (tasks[t].status == Running || (tasks[t].status == Completed && reuseCompleted)) {
        return Ok(Execution(false, true));
      }
      var retries := if existing then tasks[t].retryCount else 0;
      if existing && (tasks[t].status == Failed || tasks[t].status == Partial) {
        retries := retries + 1;
      }
      var number := NextNumber(t);
      tasks := tasks[t := Task(Running, now, retries)];
      attempts := attempts[t := (if t in attempts then attempts[t] else []) + [Attempt(number, Running)]];
      return Ok(Execution(true, existing));
    }

    /** Closes the task and its running attempt of the highest number. */
    method Finish(t: TaskId, status: Status) returns (r: Result<(), Error>)
      modifies this
      ensures match Finished(old(State()), t, status)
              case Ok(db) => State() == db && r == Ok(())
              case Err(e) => State() == old(State()) && r == Err(e)
    {
      if status == Pending || status == Running { return Err(InvalidArgument); }
      if t !in tasks { return Err(UnknownTask); }
      var closed := ClosedRunning(if t in attempts then attempts[t] else [], status);
      tasks := tasks[t := tasks[t].(status := status)];
      attempts := attempts[t := closed];
      return Ok(());
    }

    method Acquire(k: LockKey, t: TaskId, now: int, ttl: int) returns (r: Result<(), Error>)
      modifies this
      ensures match Acquired(old(State()), k, t, now, ttl)
              case Ok(db) => State() == db && r == Ok(())
              case Err(e) => State() == old(State()) && r == Err(e)
    {
      var live := map x | x in locks && locks[x].expiresAt > now :: locks[x];
      if k in live { return Err(LockHeld); }
      locks := live[k := Lock(t, now + ttl)];
      return Ok(());
    }

    method Release(k: LockKey, t: Option<TaskId>, force: bool) returns (r: Result<(), Error>)
      modifies this
      ensures force ==> r == Ok(()) && State() == old(State()).(locks := old(locks) - {k})
      ensures !force && t.Some? ==> r == Ok(()) && State() == Released(old(State()), k, t.value)
      ensures !force && t.None? ==> r == Err(InvalidArgument) && State() == old(State())
    {
      if force {
        locks := locks - {k};
      } else if t.Some? {
        if k in locks && locks[k].owner == t.value { locks := locks - {k}; }
      } else {
        return Err(InvalidArgument);
      }
      return Ok(());
    }

    /** Extends every named lease, or none of them: one lapsed lease rolls the whole renewal back. */
    method Renew(keys: set<LockKey>, t: TaskId, now: int, ttl: int) returns (r: Result<(), Error>)
      modifies this
      ensures match Renewed(old(State()), keys, t, now, ttl)
              case Ok(db) => State() == db && r == Ok(())
              case Err(e) => State() == old(State()) && r == Err(e)
    {
      if ttl <= 0 { return Err(InvalidArgument); }
      var updated, renewed, todo := locks, 0, keys;
      while todo != {}
        invariant todo <= keys && updated.Keys == locks.Keys
        invariant renewed <= |keys| - |todo|
        invariant renewed == |keys| - |todo| <==> forall k :: k in keys - todo ==> Holds(State(), k, t, now)
        invariant forall k :: k in locks ==>
                    updated[k] == if k in keys - todo && Holds(State(), k, t, now) then Lock(t, now + ttl) else locks[k]
        decreases |todo|
      {
        var k :| k in todo;
        assert keys - (todo - {k}) == (keys - todo) + {k};
        if k in locks && locks[k].owner == t && locks[k].expiresAt > now {
          updated, renewed := updated[k := Lock(t, now + ttl)], renewed + 1;
        }
        assert Holds(State(), k, t, now) || k in keys - (todo - {k});
        todo := todo - {k};
      }
      assert keys - todo == keys;
      if renewed != |keys| { return Err(LeaseLost); }
      locks := updated;
      return Ok(());
    }
  }
}
