/** The life of one executor that nobody disturbs: from its begin over its keys and its work to its last release. */
module ExecutorLives {
  import opened Wrappers
  import opened Tasks
  import opened TaskEffects
  import opened Leases

  /** The same step so many times. */
  function Times(step: Step, n: nat): (steps: seq<Step>)
    ensures |steps| == n && forall i :: 0 <= i < n ==> steps[i] == step
  {
    if n == 0 then [] else [step] + Times(step, n - 1)
  }

  lemma {:induction false} RunOn(w: World, a: seq<Step>, b: seq<Step>, ttl: int)
    ensures Run(w, a + b, ttl) == Run(Run(w, a, ttl), b, ttl)
    decreases |a|
  {
    if a == [] {
      assert a + b == b;
    } else {
      assert (a + b)[0] == a[0] && (a + b)[1..] == a[1..] + b;
      RunOn(Exec(w, a[0], ttl), a[1..], b, ttl);
    }
  }

  lemma RunOne(w: World, step: Step, ttl: int)
    ensures Run(w, [step], ttl) == Exec(w, step, ttl)
  {
    assert [step][1..] == [];
    assert Run(Exec(w, step, ttl), [], ttl) == Exec(w, step, ttl);
  }

  lemma RunFirst(w: World, step: Step, n: nat, ttl: int)
    ensures Run(w, Times(step, n), ttl) == if n == 0 then w else Run(Exec(w, step, ttl), Times(step, n - 1), ttl)
  {
    if n > 0 { assert Times(step, n)[1..] == Times(step, n - 1); }
  }

  /** Nothing but the database and this executor differs. */
  ghost predicate OnlyExecutor(w: World, w': World, p: Pid) {
    && w'.now == w.now && w'.abandoned == w.abandoned
    && w'.executors.Keys - {p} == w.executors.Keys - {p}
    && forall q :: q in w.executors && q != p ==> q in w'.executors && w'.executors[q] == w.executors[q]
  }

  /** Nobody has an unexpired row of the key. */
  predicate FreeKey(db: Db, now: int, k: LockKey) {
    !(k in db.locks && now < db.locks[k].expiresAt)
  }

  /** These keys have rows of the task for the given time; the others have what unexpired rows they had. */
  ghost predicate Locked(before: map<LockKey, Lock>, after: map<LockKey, Lock>, keys: seq<LockKey>, row: Lock,
                         now: int)
  {
    && (forall k :: k in keys ==> k in after && after[k] == row)
    && (forall k :: k !in keys && k in before && now < before[k].expiresAt ==> k in after && after[k] == before[k])
    && (forall k :: k !in keys && k in after ==> k in before && after[k] == before[k])
    && (keys != [] ==> forall k :: k !in keys && k in after ==> now < after[k].expiresAt)
  }

  /** The executor is after its keys. */
  ghost predicate Wants(w: World, p: Pid, todo: seq<LockKey>) {
    && p in w.executors && w.executors[p].stage == Acquiring(todo) && Distinct(todo)
    && forall k :: k in todo ==> FreeKey(w.db, w.now, k)
  }

  /** The executor has acquired these keys, and nothing else has changed. */
  ghost predicate HasAcquired(w: World, w': World, p: Pid, keys: seq<LockKey>, ttl: int) {
    && OnlyExecutor(w, w', p) && p in w.executors && p in w'.executors
    && w'.db.tasks == w.db.tasks && w'.db.attempts == w.db.attempts
    && Locked(w.db.locks, w'.db.locks, keys, Lock(w.executors[p].task, w.now + ttl), w.now)
    && w'.executors[p].task == w.executors[p].task
    && w'.executors[p].acquired == w.executors[p].acquired + keys
    && (forall k :: k in w'.executors[p].leases <==> k in w.executors[p].leases || k in keys)
  }

  /** Free keys are acquired one after the other, and then the executor has all of them. */
  lemma {:induction false} AcquiresAll(w: World, p: Pid, todo: seq<LockKey>, ttl: int)
    requires Wants(w, p, todo) && ttl > 0
    ensures var w' := Run(w, Times(Acquire(p), |todo|), ttl);
            HasAcquired(w, w', p, todo, ttl) && w'.executors[p].stage == Acquiring([])
    decreases |todo|
  {
    hide *;
    RunFirst(w, Acquire(p), |todo|, ttl);
    if todo == [] {
      NoneAcquired(w, p, ttl);
    } else {
      var next := Exec(w, Acquire(p), ttl);
      AcquiresOne(w, p, todo, ttl);
      AcquiresAll(next, p, todo[1..], ttl);
      HasAcquiredNext(w, next, Run(next, Times(Acquire(p), |todo| - 1), ttl), p, todo, ttl);
    }
  }

  lemma NoneAcquired(w: World, p: Pid, ttl: int)
    requires Wants(w, p, [])
    ensures HasAcquired(w, w, p, [], ttl) && w.executors[p].stage == Acquiring([])
  {
  }

  lemma HasAcquiredNext(w: World, next: World, w': World, p: Pid, todo: seq<LockKey>, ttl: int)
    requires todo != [] && Distinct(todo) && ttl > 0
    requires HasAcquired(w, next, p, [todo[0]], ttl) && HasAcquired(next, w', p, todo[1..], ttl)
    ensures HasAcquired(w, w', p, todo, ttl)
  {
    hide Locked;
    assert todo == [todo[0]] + todo[1..];
    LockedNext(w.db.locks, next.db.locks, w'.db.locks, todo, Lock(w.executors[p].task, w.now + ttl), w.now);
  }

  lemma AcquiresOne(w: World, p: Pid, todo: seq<LockKey>, ttl: int)
    requires Wants(w, p, todo) && todo != [] && ttl > 0
    ensures Distinct(todo)
    ensures var w' := Exec(w, Acquire(p), ttl);
            HasAcquired(w, w', p, [todo[0]], ttl) && Wants(w', p, todo[1..])
  {
    AcquireWrites(w.db, todo[0], w.executors[p].task, w.now, ttl);
    var w' := Exec(w, Acquire(p), ttl);
    assert FreeKey(w.db, w.now, todo[0]);
    forall k | k in todo[1..] ensures FreeKey(w'.db, w'.now, k) {
      var i :| 0 <= i < |todo| - 1 && todo[1..][i] == k;
      assert k == todo[i + 1] && FreeKey(w.db, w.now, k);
    }
  }

  lemma LockedNext(before: map<LockKey, Lock>, middle: map<LockKey, Lock>, after: map<LockKey, Lock>,
                   todo: seq<LockKey>, row: Lock, now: int)
    requires todo != [] && Distinct(todo) && now < row.expiresAt
    requires Locked(before, middle, [todo[0]], row, now) && Locked(middle, after, todo[1..], row, now)
    ensures Locked(before, after, todo, row, now)
  {
    assert todo == [todo[0]] + todo[1..];
    assert todo[0] !in todo[1..];
  }

  /** The rows of its keys are its own. */
  ghost predicate Owns(w: World, p: Pid) {
    && p in w.executors && w.executors[p].stage == Closing && Distinct(w.executors[p].acquired)
    && forall k :: k in w.executors[p].acquired ==> k in w.db.locks && w.db.locks[k].owner == w.executors[p].task
  }

  /** The executor is gone, and of the lock rows exactly those of its keys are. */
  ghost predicate HasReleased(w: World, w': World, p: Pid) {
    && OnlyExecutor(w, w', p) && p in w.executors && p !in w'.executors
    && w'.db.tasks == w.db.tasks && w'.db.attempts == w.db.attempts
    && (forall k :: k in w'.db.locks <==> k in w.db.locks && k !in w.executors[p].acquired)
    && (forall k :: k in w'.db.locks ==> w'.db.locks[k] == w.db.locks[k])
  }

  /** Releasing in reverse, the executor leaves no row of its keys, and goes. */
  lemma {:induction false} ReleasesAll(w: World, p: Pid, ttl: int)
    requires Owns(w, p)
    ensures HasReleased(w, Run(w, Times(Release(p), |w.executors[p].acquired| + 1), ttl), p)
    decreases |w.executors[p].acquired|
  {
    var keys, next := w.executors[p].acquired, Exec(w, Release(p), ttl);
    RunFirst(w, Release(p), |keys| + 1, ttl);
    if keys == [] {
      RunFirst(next, Release(p), 0, ttl);
      Goes(w, p, ttl);
    } else {
      ReleasesOne(w, p, ttl);
      hide *;
      ReleasesAll(next, p, ttl);
      HasReleasedNext(w, next, Run(next, Times(Release(p), |keys|), ttl), p);
    }
  }

  lemma Goes(w: World, p: Pid, ttl: int)
    requires Owns(w, p) && w.executors[p].acquired == []
    ensures HasReleased(w, Exec(w, Release(p), ttl), p)
  {
  }

  /** The executor has released the last of its keys. */
  ghost predicate HasReleasedLast(w: World, w': World, p: Pid) {
    && OnlyExecutor(w, w', p) && p in w.executors && p in w'.executors
    && var keys := w.executors[p].acquired;
       && keys != [] && w'.executors[p].acquired == keys[..|keys| - 1]
       && w'.db.tasks == w.db.tasks && w'.db.attempts == w.db.attempts
       && (forall k :: k in w'.db.locks <==> k in w.db.locks && k != keys[|keys| - 1])
       && (forall k :: k in w'.db.locks ==> w'.db.locks[k] == w.db.locks[k])
  }

  lemma HasReleasedNext(w: World, next: World, w': World, p: Pid)
    requires HasReleasedLast(w, next, p) && HasReleased(next, w', p)
    ensures HasReleased(w, w', p)
  {
    var keys := w.executors[p].acquired;
    assert keys == keys[..|keys| - 1] + [keys[|keys| - 1]];
  }

  lemma ReleasesOne(w: World, p: Pid, ttl: int)
    requires Owns(w, p) && w.executors[p].acquired != []
    ensures var w', keys := Exec(w, Release(p), ttl), w.executors[p].acquired;
            HasReleasedLast(w, w', p) && Owns(w', p) && w'.executors[p].acquired == keys[..|keys| - 1]
  {
    var keys := w.executors[p].acquired;
    ReleaseWrites(w.db, keys[|keys| - 1], w.executors[p].task);
  }

  /** The task has this status, in its only attempt too; locks and other tasks are as they were. */
  ghost predicate HasTask(w: World, w': World, p: Pid, t: TaskId, status: Status) {
    && OnlyExecutor(w, w', p) && p in w'.executors && w'.executors[p].task == t && w'.db.locks == w.db.locks
    && w'.db.tasks.Keys == w.db.tasks.Keys + {t} && w'.db.tasks[t].status == status
    && (forall u :: u in w.db.tasks && u != t ==> w'.db.tasks[u] == w.db.tasks[u])
    && |AttemptsOf(w'.db, t)| == 1 && AttemptsOf(w'.db, t)[0].status == status
    && (forall u :: u != t ==> AttemptsOf(w'.db, u) == AttemptsOf(w.db, u))
  }

  lemma Begins(w: World, p: Pid, t: TaskId, keys: seq<LockKey>, ttl: int)
    requires p !in w.executors && t !in w.db.tasks && AttemptsOf(w.db, t) == [] && Distinct(keys) && ttl > 0
    requires forall k :: k in keys ==> FreeKey(w.db, w.now, k)
    ensures var w' := Exec(w, Begin(p, t, keys), ttl);
            Wants(w', p, keys) && HasTask(w, w', p, t, Running) && w'.executors[p].acquired == []
            && w'.executors[p].leases == map[]
  {
    BeginDecides(w.db, t, w.now, false, ttl);
    BeginWrites(w.db, t, w.now, false, ttl);
  }

  /** The executor has its keys until the given time, and its task runs in its only attempt. */
  ghost predicate Ready(w: World, p: Pid, until: int) {
    && p in w.executors && Distinct(w.executors[p].acquired) && w.now < until
    && (forall k :: k in w.executors[p].leases <==> k in w.executors[p].acquired)
    && (forall k :: k in w.executors[p].acquired ==>
          k in w.db.locks && w.db.locks[k] == Lock(w.executors[p].task, until))
    && var t := w.executors[p].task;
       && t in w.db.tasks && w.db.tasks[t].status == Running
       && |AttemptsOf(w.db, t)| == 1 && AttemptsOf(w.db, t)[0].status == Running
  }

  /** The executor stays itself, but for its stage. */
  ghost predicate SameKeys(w: World, w': World, p: Pid) {
    && OnlyExecutor(w, w', p) && p in w.executors && p in w'.executors
    && w'.executors[p].task == w.executors[p].task && w'.executors[p].acquired == w.executors[p].acquired
    && w'.executors[p].leases.Keys == w.executors[p].leases.Keys
  }

  /** A renewal in time extends every lease of the executor and its row to the full time from now, and no other row
      or lease. */
  lemma RenewsAll(w: World, p: Pid, until: int, ttl: int)
    requires Ready(w, p, until) && w.executors[p].stage == Working && ttl > 0
    ensures var w' := Exec(w, Renew(p), ttl);
            && SameKeys(w, w', p) && w'.executors[p].stage == Working && Ready(w', p, w.now + ttl)
            && (forall k :: k in w'.executors[p].leases ==> w'.executors[p].leases[k] == w.now + ttl)
            && w'.db.tasks == w.db.tasks && w'.db.attempts == w.db.attempts && w'.db.locks.Keys == w.db.locks.Keys
            && (forall k :: k in w.db.locks && k !in w.executors[p].acquired ==> w'.db.locks[k] == w.db.locks[k])
  {
    var e := w.executors[p];
    RenewWrites(w.db, e.leases.Keys, e.task, w.now, ttl);
  }

  lemma FinishesOne(w: World, p: Pid, status: Status, ttl: int)
    requires Ready(w, p, w.now + ttl) && w.executors[p].stage == Working && status !in {Pending, Running}
    ensures var w' := Exec(w, Finish(p, status), ttl);
            SameKeys(w, w', p) && Owns(w', p) && HasTask(w, w', p, w.executors[p].task, status)
  {
    FinishWrites(w.db, w.executors[p].task, status);
  }

  /** With all its keys, the executor works, renews at least once, and finishes its task. */
  lemma WorksAndFinishes(w: World, p: Pid, status: Status, ttl: int)
    requires Ready(w, p, w.now + ttl) && w.executors[p].stage == Acquiring([]) && status !in {Pending, Running}
    ensures var w' := Run(w, [Work(p), Renew(p), Finish(p, status)], ttl);
            SameKeys(w, w', p) && Owns(w', p) && HasTask(w, w', p, w.executors[p].task, status)
  {
    var working := Exec(w, Work(p), ttl);
    assert Ready(working, p, w.now + ttl) && SameKeys(w, working, p) && working.db == w.db;
    RenewsAll(working, p, w.now + ttl, ttl);
    var renewed := Exec(working, Renew(p), ttl);
    assert renewed.db.locks == w.db.locks;
    FinishesOne(renewed, p, status, ttl);
    var steps := [Work(p), Renew(p), Finish(p, status)];
    assert steps[1..] == [Renew(p), Finish(p, status)] && steps[1..][1..] == [Finish(p, status)];
    RunOne(renewed, Finish(p, status), ttl);
  }

  /** An executor of a new task gets its free keys, works, finishes, and is gone: the task has ended with the given
      status after one attempt, every other task is as it was, and of all locks exactly the unexpired ones of others
      are left (all of them, if the task needs no keys). */
  lemma LivesToItsEnd(w: World, p: Pid, t: TaskId, keys: seq<LockKey>, status: Status, ttl: int)
    requires p !in w.executors && t !in w.db.tasks && AttemptsOf(w.db, t) == [] && Distinct(keys) && ttl > 0
    requires status !in {Pending, Running} && forall k :: k in keys ==> FreeKey(w.db, w.now, k)
    ensures var steps := [Begin(p, t, keys)] + Times(Acquire(p), |keys|) + [Work(p), Renew(p), Finish(p, status)]
                         + Times(Release(p), |keys| + 1);
            EndsAs(w, Run(w, steps, ttl), t, keys, status)
  {
    hide *;
    var begun := Exec(w, Begin(p, t, keys), ttl);
    Begins(w, p, t, keys, ttl);
    AcquiresAll(begun, p, keys, ttl);
    var held := Run(begun, Times(Acquire(p), |keys|), ttl);
    ReadyNow(w, begun, held, p, t, keys, ttl);
    WorksAndFinishes(held, p, status, ttl);
    var closing := Run(held, [Work(p), Renew(p), Finish(p, status)], ttl);
    ReleasesAll(closing, p, ttl);
    var end := Run(closing, Times(Release(p), |keys| + 1), ttl);
    Adds(w, begun, held, closing, end, p, t, keys, status, ttl);
    var first, a, b := [Begin(p, t, keys)], Times(Acquire(p), |keys|), [Work(p), Renew(p), Finish(p, status)];
    RunOne(w, Begin(p, t, keys), ttl);
    RunOn(w, first, a, ttl);
    RunOn(w, first + a, b, ttl);
    RunOn(w, first + a + b, Times(Release(p), |keys| + 1), ttl);
  }

  lemma ReadyNow(w: World, begun: World, held: World, p: Pid, t: TaskId, keys: seq<LockKey>, ttl: int)
    requires HasTask(w, begun, p, t, Running) && begun.executors[p].acquired == [] && begun.executors[p].leases == map[]
    requires HasAcquired(begun, held, p, keys, ttl) && ttl > 0 && Distinct(keys)
    ensures Ready(held, p, held.now + ttl) && held.executors[p].acquired == keys && held.executors[p].task == t
  {
    assert [] + keys == keys;
  }

  lemma Adds(w: World, begun: World, held: World, closing: World, end: World, p: Pid, t: TaskId,
             keys: seq<LockKey>, status: Status, ttl: int)
    requires p !in w.executors && forall k :: k in keys ==> FreeKey(w.db, w.now, k)
    requires HasTask(w, begun, p, t, Running) && HasAcquired(begun, held, p, keys, ttl)
    requires SameKeys(held, closing, p) && HasTask(held, closing, p, t, status) && HasReleased(closing, end, p)
    requires held.executors[p].acquired == keys
    ensures EndsAs(w, end, t, keys, status)
  {
    SameOthers(w, begun, held, closing, end, p);
    forall k | k in keys ensures !(k in w.db.locks && w.now < w.db.locks[k].expiresAt) {
      assert FreeKey(w.db, w.now, k);
    }
    hide Locked, LocksEndAs, TaskEndsAs, FreeKey;
    AddsTask(w, begun, held, closing, end, p, t, status);
    AddsLocks(w.db.locks, held.db.locks, end.db.locks, keys, Lock(t, w.now + ttl), w.now);
  }

  lemma SameOthers(w: World, begun: World, held: World, closing: World, end: World, p: Pid)
    requires p !in w.executors && p !in end.executors
    requires OnlyExecutor(w, begun, p) && OnlyExecutor(begun, held, p)
    requires OnlyExecutor(held, closing, p) && OnlyExecutor(closing, end, p)
    ensures end.executors == w.executors && end.now == w.now && end.abandoned == w.abandoned
  {
    assert end.executors.Keys == end.executors.Keys - {p} == w.executors.Keys - {p} == w.executors.Keys;
  }

  lemma AddsTask(w: World, begun: World, held: World, closing: World, end: World, p: Pid, t: TaskId, status: Status)
    requires HasTask(w, begun, p, t, Running) && HasTask(held, closing, p, t, status)
    requires held.db.tasks == begun.db.tasks && held.db.attempts == begun.db.attempts
    requires end.db.tasks == closing.db.tasks && end.db.attempts == closing.db.attempts
    ensures TaskEndsAs(w, end, t, status)
  {
    hide OnlyExecutor;
    assert w.db.tasks.Keys + {t} + {t} == w.db.tasks.Keys + {t};
    assert end.db.tasks.Keys == w.db.tasks.Keys + {t};
    forall u | u in w.db.tasks && u != t ensures end.db.tasks[u] == w.db.tasks[u] {
      assert u in begun.db.tasks && begun.db.tasks[u] == w.db.tasks[u];
    }
    forall u
      ensures AttemptsOf(end.db, u) == AttemptsOf(closing.db, u) && AttemptsOf(held.db, u) == AttemptsOf(begun.db, u)
    {
    }
  }

  lemma AddsLocks(before: map<LockKey, Lock>, held: map<LockKey, Lock>, after: map<LockKey, Lock>,
                  keys: seq<LockKey>, row: Lock, now: int)
    requires Locked(before, held, keys, row, now)
    requires forall k :: k in keys ==> !(k in before && now < before[k].expiresAt)
    requires forall k :: k in after <==> k in held && k !in keys
    requires forall k :: k in after ==> after[k] == held[k]
    ensures LocksEndAs(before, after, keys, now)
  {
  }

  ghost predicate EndsAs(w: World, w': World, t: TaskId, keys: seq<LockKey>, status: Status) {
    && w'.executors == w.executors && w'.now == w.now && w'.abandoned == w.abandoned
    && TaskEndsAs(w, w', t, status) && LocksEndAs(w.db.locks, w'.db.locks, keys, w.now)
  }

  ghost predicate TaskEndsAs(w: World, w': World, t: TaskId, status: Status) {
    && w'.db.tasks.Keys == w.db.tasks.Keys + {t} && w'.db.tasks[t].status == status
    && (forall u :: u in w.db.tasks && u != t ==> w'.db.tasks[u] == w.db.tasks[u])
    && |AttemptsOf(w'.db, t)| == 1 && AttemptsOf(w'.db, t)[0].status == status
    && (forall u :: u != t ==> AttemptsOf(w'.db, u) == AttemptsOf(w.db, u))
  }

  /** Of the rows before, at least the unexpired ones are left, and if keys were acquired, only these. */
  ghost predicate LocksEndAs(before: map<LockKey, Lock>, after: map<LockKey, Lock>, keys: seq<LockKey>, now: int) {
    && (forall k :: k in after ==> k in before && after[k] == before[k])
    && (forall k :: k in before && now < before[k].expiresAt ==> k in after)
    && (keys != [] ==> forall k :: k in after ==> now < after[k].expiresAt)
  }

  // ---- Lives that end early ----

  /** This step is the end of the executor's hopes: a key it wants is held, or its work fails. */
  ghost predicate Discourages(w: World, p: Pid, step: Step) {
    && Enabled(w, step)
    && (step == Fail(p) || (step == Acquire(p) && !FreeKey(w.db, w.now, w.executors[p].stage.todo[0])))
  }

  /** The rows of its keys are its own, whatever it is doing, and its task runs. */
  ghost predicate Runs(w: World, p: Pid) {
    && p in w.executors && Distinct(w.executors[p].acquired)
    && (forall k :: k in w.executors[p].acquired ==> k in w.db.locks && w.db.locks[k].owner == w.executors[p].task)
    && w.executors[p].task in w.db.tasks && w.db.tasks[w.executors[p].task].status == Running
  }

  lemma Aborts(w: World, p: Pid, step: Step, ttl: int)
    requires Runs(w, p) && Discourages(w, p, step)
    ensures var w' := Exec(w, step, ttl);
            SameKeys(w, w', p) && w'.db == w.db && w'.executors[p].stage == Aborting && Runs(w', p)
  {
    if step == Acquire(p) {
      AcquireWrites(w.db, w.executors[p].stage.todo[0], w.executors[p].task, w.now, ttl);
    }
  }

  lemma FailsTask(w: World, p: Pid, ttl: int)
    requires Runs(w, p) && w.executors[p].stage == Aborting
    ensures var w', t := Exec(w, Finish(p, Failed), ttl), w.executors[p].task;
            && SameKeys(w, w', p) && Owns(w', p) && w'.db.locks == w.db.locks
            && w'.db.tasks.Keys == w.db.tasks.Keys && w'.db.tasks[t].status == Failed
            && forall u :: u in w.db.tasks && u != t ==> w'.db.tasks[u] == w.db.tasks[u]
  {
    FinishWrites(w.db, w.executors[p].task, Failed);
  }

  /** A discouraged executor fails its task, leaves no row of its keys, and goes. */
  lemma GivesUp(w: World, p: Pid, step: Step, ttl: int)
    requires Runs(w, p) && Discourages(w, p, step)
    ensures var e := w.executors[p];
            var w' := Run(w, [step, Finish(p, Failed)] + Times(Release(p), |e.acquired| + 1), ttl);
            && OnlyExecutor(w, w', p) && p !in w'.executors
            && w'.db.tasks.Keys == w.db.tasks.Keys && w'.db.tasks[e.task].status == Failed
            && (forall u :: u in w.db.tasks && u != e.task ==> w'.db.tasks[u] == w.db.tasks[u])
            && (forall k :: k in w'.db.locks <==> k in w.db.locks && k !in e.acquired)
            && (forall k :: k in w'.db.locks ==> w'.db.locks[k] == w.db.locks[k])
  {
    hide Exec, Runs, Discourages, Owns, Run;
    var aborting := Exec(w, step, ttl);
    Aborts(w, p, step, ttl);
    FailsTask(aborting, p, ttl);
    var closing := Exec(aborting, Finish(p, Failed), ttl);
    ReleasesAll(closing, p, ttl);
    var a, b := [step], [Finish(p, Failed)];
    RunOne(w, step, ttl);
    RunOne(aborting, Finish(p, Failed), ttl);
    RunOn(w, a, b, ttl);
    assert a + b == [step, Finish(p, Failed)];
    RunOn(w, a + b, Times(Release(p), |w.executors[p].acquired| + 1), ttl);
  }

  /** An executor that vanishes leaves the database as it is, and its rows to nobody. */
  lemma Vanishes(w: World, p: Pid, ttl: int)
    requires p in w.executors
    ensures var w', e := Exec(w, Vanish(p), ttl), w.executors[p];
            && w'.db == w.db && w'.now == w.now && p !in w'.executors
            && (forall q :: q in w.executors && q != p ==> q in w'.executors && w'.executors[q] == w.executors[q])
            && (forall q :: q in w'.executors ==> q in w.executors)
            && (forall k :: k in e.leases ==> (k, Lock(e.task, e.leases[k])) in w'.abandoned)
  {
  }
}
