/** Concurrent executors over one task store: who may run, and who may hold which lock, at the same time.

    Every executor begins its task, acquires its keys one by one, works while renewing, finishes the task
    and releases its keys in reverse. Steps of different executors interleave freely, time passes between
    them, and an executor may vanish at any point leaving its rows behind. */
module Leases {
  import opened Wrappers
  import opened Tasks

  type Pid = nat

  datatype Stage = Acquiring(todo: seq<LockKey>) | Working | Aborting | Closing

  /** An executor between its accepted begin and its last release. `leases` maps each key it acquired and has
      not released to the expiry it last obtained for it. */
  datatype Executor = Executor(
    task: TaskId, begunAt: int, stage: Stage, acquired: seq<LockKey>, leases: map<LockKey, int>)

  /** `abandoned` are the lock rows that executors which vanished left behind. */
  datatype World = World(db: Db, now: int, executors: map<Pid, Executor>, abandoned: set<(LockKey, Lock)>)

  datatype Step =
    | Begin(pid: Pid, task: TaskId, keys: seq<LockKey>)
    | Acquire(pid: Pid)
    | Work(pid: Pid)
    | Renew(pid: Pid)
    | Fail(pid: Pid)
    | Finish(pid: Pid, status: Status)
    | Release(pid: Pid)
    | Vanish(pid: Pid)
    | Tick(seconds: nat)

  ghost predicate Distinct(keys: seq<LockKey>) {
    forall i, j :: 0 <= i < j < |keys| ==> keys[i] != keys[j]
  }

  ghost predicate Enabled(w: World, step: Step) {
    match step
    case Begin(p, _, keys) => p !in w.executors && Distinct(keys)
    case Acquire(p) => p in w.executors && w.executors[p].stage.Acquiring? && w.executors[p].stage.todo != []
    case Work(p) => p in w.executors && w.executors[p].stage == Acquiring([])
    case Renew(p) => p in w.executors && w.executors[p].stage == Working
    case Fail(p) => p in w.executors && (w.executors[p].stage.Acquiring? || w.executors[p].stage == Working)
    case Finish(p, status) =>
      && p in w.executors && status !in {Pending, Running}
      && (w.executors[p].stage == Working || (w.executors[p].stage == Aborting && status == Failed))
    case Release(p) => p in w.executors && w.executors[p].stage == Closing
    case Vanish(p) => p in w.executors
    case Tick(_) => true
  }

  function LeasesOf(e: Executor): set<(LockKey, Lock)> {
    set k | k in e.leases :: (k, Lock(e.task, e.leases[k]))
  }

  function With(w: World, p: Pid, e: Executor): World {
    w.(executors := w.executors[p := e])
  }

  function AcquireStep(w: World, p: Pid, ttl: int): World
    requires p in w.executors && w.executors[p].stage.Acquiring? && w.executors[p].stage.todo != []
  {
    var e := w.executors[p];
    var k := e.stage.todo[0];
    match Acquired(w.db, k, e.task, w.now, ttl)
    case Err(_) => With(w, p, e.(stage := Aborting))
    case Ok(db) =>
      With(w.(db := db), p, e.(stage := Acquiring(e.stage.todo[1..]), acquired := e.acquired + [k],
                               leases := e.leases[k := w.now + ttl]))
  }

  function RenewStep(w: World, p: Pid, ttl: int): World
    requires p in w.executors
  {
    var e := w.executors[p];
    match Renewed(w.db, e.leases.Keys, e.task, w.now, ttl)
    case Err(_) => w
    case Ok(db) => With(w.(db := db), p, e.(leases := map k | k in e.leases :: w.now + ttl))
  }

  /** A failing executor marks its task failed only if it still finds it running. */
  function FinishStep(w: World, p: Pid, status: Status): World
    requires p in w.executors
  {
    var e := w.executors[p];
    var skip := e.stage == Aborting && (e.task !in w.db.tasks || w.db.tasks[e.task].status != Running);
    var r := Finished(w.db, e.task, status);
    With(if skip || r.Err? then w else w.(db := r.value), p, e.(stage := Closing))
  }

  function ReleaseStep(w: World, p: Pid): World
    requires p in w.executors
  {
    var e := w.executors[p];
    if e.acquired == [] then w.(executors := w.executors - {p})
    else
      var k := e.acquired[|e.acquired| - 1];
      With(w.(db := Released(w.db, k, e.task)), p,
           e.(acquired := e.acquired[..|e.acquired| - 1], leases := e.leases - {k}))
  }

  ghost function BeginStep(w: World, p: Pid, t: TaskId, keys: seq<LockKey>, ttl: int): World {
    var (db, execution) := Begun(w.db, t, w.now, false, ttl);
    if execution.required then With(w.(db := db), p, Executor(t, w.now, Acquiring(keys), [], map[]))
    else w.(db := db)
  }

  ghost function Exec(w: World, step: Step, ttl: int): World {
    if !Enabled(w, step) then w
    else
      match step
      case Begin(p, t, keys) => BeginStep(w, p, t, keys, ttl)
      case Acquire(p) => AcquireStep(w, p, ttl)
      case Work(p) => With(w, p, w.executors[p].(stage := Working))
      case Renew(p) => RenewStep(w, p, ttl)
      case Fail(p) => With(w, p, w.executors[p].(stage := Aborting))
      case Finish(p, status) => FinishStep(w, p, status)
      case Release(p) => ReleaseStep(w, p)
      case Vanish(p) =>
        w.(executors := w.executors - {p}, abandoned := w.abandoned + LeasesOf(w.executors[p]))
      case Tick(seconds) => w.(now := w.now + seconds)
  }

  ghost function Run(w: World, steps: seq<Step>, ttl: int): World
    decreases |steps|
  {
    if steps == [] then w else Run(Exec(w, steps[0], ttl), steps[1..], ttl)
  }

  // ---- The invariant ----

  ghost predicate Executing(e: Executor) {
    e.stage != Closing
  }

  /** What an executor knows of its keys: each acquired once, none of them still to do. */
  ghost predicate KeysOk(e: Executor) {
    && Distinct(e.acquired) && (forall k :: k in e.leases <==> k in e.acquired)
    && (e.stage.Acquiring? ==> Distinct(e.stage.todo) && (forall k :: k in e.stage.todo ==> k !in e.acquired))
  }

  /** Its leases that have not lapsed are backed by lock rows. */
  ghost predicate Backed(w: World, e: Executor) {
    forall k :: k in e.leases && e.leases[k] > w.now ==>
      k in w.db.locks && w.db.locks[k] == Lock(e.task, e.leases[k])
  }

  /** The task it executes runs since its begin. */
  ghost predicate TaskRuns(w: World, e: Executor) {
    Executing(e) ==>
      e.task in w.db.tasks && w.db.tasks[e.task].status == Running && w.db.tasks[e.task].startedAt == e.begunAt
  }

  ghost predicate ExecutorOk(w: World, e: Executor) {
    KeysOk(e) && Backed(w, e) && TaskRuns(w, e)
  }

  /** No common key, and not both executing one task. */
  ghost predicate Apart(a: Executor, b: Executor) {
    && a.leases.Keys !! b.leases.Keys
    && (Executing(a) && Executing(b) ==> a.task != b.task)
  }

  ghost predicate Exclusive(w: World) {
    forall p, q :: p in w.executors && q in w.executors && p != q ==> Apart(w.executors[p], w.executors[q])
  }

  ghost predicate Inv(w: World) {
    && (forall p :: p in w.executors ==> ExecutorOk(w, w.executors[p]))
    && Exclusive(w)
  }

  // ---- What breaks exclusion ----

  /** Executing for longer than the TTL without a live lock. */
  ghost predicate Overdue(w: World, e: Executor, ttl: int) {
    Executing(e) && w.now - e.begunAt > ttl && !HasLiveLock(w.db, e.task, w.now)
  }

  /** Its lease of this key has lapsed, and no lock row holds the key any more. */
  ghost predicate Lapsed(w: World, e: Executor, k: LockKey) {
    k in e.leases && e.leases[k] <= w.now && k !in Unexpired(w.db.locks, w.now)
  }

  /** The two ways to break exclusion: a begin of a task whose executor is overdue, and an acquisition of a key
      that another executor let lapse. */
  ghost predicate Breaks(w: World, step: Step, ttl: int)
    requires Enabled(w, step)
  {
    match step
    case Begin(_, t, _) =>
      exists q :: q in w.executors && w.executors[q].task == t && Overdue(w, w.executors[q], ttl)
    case Acquire(p) =>
      exists q :: q in w.executors && q != p && Lapsed(w, w.executors[q], w.executors[p].stage.todo[0])
    case _ => false
  }

  lemma BeginBreaks(w: World, p: Pid, t: TaskId, keys: seq<LockKey>, q: Pid, ttl: int)
    requires Inv(w) && p !in w.executors && q in w.executors
    requires w.executors[q].task == t && Overdue(w, w.executors[q], ttl)
    ensures !Exclusive(BeginStep(w, p, t, keys, ttl))
  {
    assert ExecutorOk(w, w.executors[q]);
    var w' := BeginStep(w, p, t, keys, ttl);
    assert Begun(w.db, t, w.now, false, ttl).1.required;
    assert !Apart(w'.executors[p], w'.executors[q]);
  }

  lemma AcquireBreaks(w: World, p: Pid, q: Pid, ttl: int)
    requires Inv(w) && Enabled(w, Acquire(p)) && q in w.executors && q != p
    requires Lapsed(w, w.executors[q], w.executors[p].stage.todo[0])
    ensures !Exclusive(AcquireStep(w, p, ttl))
  {
    var w', k := AcquireStep(w, p, ttl), w.executors[p].stage.todo[0];
    assert k in w'.executors[p].leases.Keys && k in w'.executors[q].leases.Keys;
    assert !Apart(w'.executors[p], w'.executors[q]);
  }

  /** An executor that is not overdue cannot be doubled: a begin of its task is refused without effect. */
  lemma SecondBeginRefused(w: World, p: Pid, reuseCompleted: bool, ttl: int)
    requires p in w.executors && TaskRuns(w, w.executors[p])
    requires Executing(w.executors[p]) && !Overdue(w, w.executors[p], ttl)
    ensures var t := w.executors[p].task;
            Begun(w.db, t, w.now, reuseCompleted, ttl) == (w.db, Execution(false, true))
  {
  }

  /** A begin, with the recovery it may do, leaves every executor its leases and its running task. */
  lemma BeginKeepsOthers(w: World, q: Pid, t: TaskId, ttl: int)
    requires q in w.executors && ExecutorOk(w, w.executors[q])
    requires !(w.executors[q].task == t && Overdue(w, w.executors[q], ttl))
    ensures ExecutorOk(w.(db := Begun(w.db, t, w.now, false, ttl).0), w.executors[q])
    ensures Begun(w.db, t, w.now, false, ttl).1.required ==>
              !(Executing(w.executors[q]) && w.executors[q].task == t)
  {
    var e := w.executors[q];
    if Executing(e) && e.task == t {
      SecondBeginRefused(w, q, false, ttl);
    } else if Stale(w.db, t, w.now, ttl) {
      forall k | k in e.leases && e.leases[k] > w.now ensures w.db.locks[k].owner != t {
        assert w.db.locks[k] == Lock(e.task, e.leases[k]);
      }
    }
  }

  lemma BeginKeepsInv(w: World, p: Pid, t: TaskId, keys: seq<LockKey>, ttl: int)
    requires Inv(w) && Enabled(w, Begin(p, t, keys)) && !Breaks(w, Begin(p, t, keys), ttl)
    ensures Inv(BeginStep(w, p, t, keys, ttl))
  {
    var (db, execution) := Begun(w.db, t, w.now, false, ttl);
    var w' := BeginStep(w, p, t, keys, ttl);
    assert w'.db == db;
    forall q | q in w.executors
      ensures ExecutorOk(w', w.executors[q])
      ensures execution.required ==> !(Executing(w.executors[q]) && w.executors[q].task == t)
    {
      BeginKeepsOthers(w, q, t, ttl);
    }
    if execution.required { assert ExecutorOk(w', w'.executors[p]); }
  }

  /** The new lease belongs to nobody else, and a lease that has not lapsed survives the purge. */
  lemma AcquiredKeyIsFree(w: World, q: Pid, k: LockKey, t: TaskId, ttl: int)
    requires q in w.executors && Backed(w, w.executors[q]) && Acquired(w.db, k, t, w.now, ttl).Ok?
    requires !Lapsed(w, w.executors[q], k)
    ensures k !in w.executors[q].leases
    ensures Backed(w.(db := Acquired(w.db, k, t, w.now, ttl).value), w.executors[q])
  {
    var e := w.executors[q];
    assert forall x :: x in e.leases && e.leases[x] > w.now ==> x in Unexpired(w.db.locks, w.now);
  }

  lemma AcquirerOk(w: World, p: Pid, ttl: int)
    requires Inv(w) && Enabled(w, Acquire(p))
    ensures var w' := AcquireStep(w, p, ttl); ExecutorOk(w', w'.executors[p])
  {
    var e, k := w.executors[p], w.executors[p].stage.todo[0];
    assert ExecutorOk(w, e);
    if Acquired(w.db, k, e.task, w.now, ttl).Ok? {
      AcquiredKeyIsFree(w, p, k, e.task, ttl);
      var rest := e.stage.todo[1..];
      assert forall x :: x in rest ==> x in e.stage.todo && x != k;
    }
  }

  lemma AcquireKeepsInv(w: World, p: Pid, ttl: int)
    requires Inv(w) && Enabled(w, Acquire(p)) && !Breaks(w, Acquire(p), ttl)
    ensures Inv(AcquireStep(w, p, ttl))
  {
    var w' := AcquireStep(w, p, ttl);
    var e, k := w.executors[p], w.executors[p].stage.todo[0];
    AcquirerOk(w, p, ttl);
    forall q | q in w.executors && q != p
      ensures ExecutorOk(w', w.executors[q]) && Apart(w.executors[q], w'.executors[p])
              && Apart(w'.executors[p], w.executors[q])
    {
      assert ExecutorOk(w, w.executors[q]) && Apart(w.executors[p], w.executors[q]);
      if Acquired(w.db, k, e.task, w.now, ttl).Ok? {
        AcquiredKeyIsFree(w, q, k, e.task, ttl);
      }
    }
  }

  /** A renewal made before anything has lapsed never fails. */
  lemma RenewalSucceeds(w: World, p: Pid, ttl: int)
    requires Inv(w) && p in w.executors && ttl > 0
    requires forall k :: k in w.executors[p].leases ==> w.now < w.executors[p].leases[k]
    ensures Renewed(w.db, w.executors[p].leases.Keys, w.executors[p].task, w.now, ttl).Ok?
  {
    assert ExecutorOk(w, w.executors[p]);
  }

  lemma RenewKeepsOther(w: World, p: Pid, q: Pid, ttl: int)
    requires p in w.executors && q in w.executors && q != p
    requires ExecutorOk(w, w.executors[q]) && Apart(w.executors[p], w.executors[q])
    ensures ExecutorOk(RenewStep(w, p, ttl), w.executors[q])
  {
    var w' := RenewStep(w, p, ttl);
    forall k | k in w.executors[q].leases ensures k !in w.executors[p].leases.Keys {}
  }

  lemma RenewerOk(w: World, p: Pid, ttl: int)
    requires p in w.executors && ExecutorOk(w, w.executors[p])
    ensures var w' := RenewStep(w, p, ttl);
            ExecutorOk(w', w'.executors[p]) && w'.executors.Keys == w.executors.Keys
            && w'.executors[p].leases.Keys == w.executors[p].leases.Keys
            && w'.executors[p].stage == w.executors[p].stage && w'.executors[p].task == w.executors[p].task
  {
  }

  lemma RenewKeepsInv(w: World, p: Pid, ttl: int)
    requires Inv(w) && p in w.executors
    ensures Inv(RenewStep(w, p, ttl))
  {
    hide KeysOk, Backed, TaskRuns, Renewed;
    var w' := RenewStep(w, p, ttl);
    assert ExecutorOk(w, w.executors[p]);
    RenewerOk(w, p, ttl);
    forall q | q in w.executors && q != p
      ensures ExecutorOk(w', w.executors[q]) && w'.executors[q] == w.executors[q]
      ensures Apart(w'.executors[p], w.executors[q]) && Apart(w.executors[q], w'.executors[p])
    {
      assert ExecutorOk(w, w.executors[q]) && Apart(w.executors[p], w.executors[q]);
      RenewKeepsOther(w, p, q, ttl);
    }
  }

  /** Finishing its own task leaves the other executors theirs. */
  lemma FinishKeepsOther(w: World, p: Pid, q: Pid, status: Status)
    requires p in w.executors && q in w.executors && q != p && Executing(w.executors[p])
    requires ExecutorOk(w, w.executors[q]) && Apart(w.executors[p], w.executors[q])
    ensures ExecutorOk(FinishStep(w, p, status), w.executors[q])
  {
    hide CloseLatest, KeysOk;
  }

  lemma FinishKeepsInv(w: World, p: Pid, status: Status)
    requires Inv(w) && Enabled(w, Finish(p, status))
    ensures Inv(FinishStep(w, p, status))
  {
    hide CloseLatest, KeysOk, Backed, Finished;
    var w' := FinishStep(w, p, status);
    FinisherOk(w, p, status);
    forall q | q in w.executors && q != p ensures ExecutorOk(w', w'.executors[q]) {
      assert ExecutorOk(w, w.executors[q]) && Apart(w.executors[p], w.executors[q]);
      FinishKeepsOther(w, p, q, status);
    }
  }

  lemma FinisherOk(w: World, p: Pid, status: Status)
    requires Inv(w) && Enabled(w, Finish(p, status))
    ensures var w' := FinishStep(w, p, status); ExecutorOk(w', w'.executors[p])
  {
    hide CloseLatest;
    assert ExecutorOk(w, w.executors[p]);
  }

  /** Dropping the last acquired key drops its lease and no other. */
  lemma LastLeaseDropped(acquired: seq<LockKey>, leases: map<LockKey, int>)
    requires acquired != [] && Distinct(acquired) && forall x :: x in leases <==> x in acquired
    ensures var k, front := acquired[|acquired| - 1], acquired[..|acquired| - 1];
            Distinct(front) && k in leases && forall x :: x in leases - {k} <==> x in front
  {
    var k, front := acquired[|acquired| - 1], acquired[..|acquired| - 1];
    assert acquired == front + [k];
  }

  lemma ReleaserOk(w: World, p: Pid)
    requires Inv(w) && Enabled(w, Release(p)) && w.executors[p].acquired != []
    ensures var w' := ReleaseStep(w, p); ExecutorOk(w', w'.executors[p])
  {
    var e := w.executors[p];
    assert ExecutorOk(w, e);
    LastLeaseDropped(e.acquired, e.leases);
  }

  lemma ReleaseKeepsInv(w: World, p: Pid)
    requires Inv(w) && Enabled(w, Release(p))
    ensures Inv(ReleaseStep(w, p))
  {
    var w', e := ReleaseStep(w, p), w.executors[p];
    assert ExecutorOk(w, e);
    if e.acquired != [] {
      ReleaserOk(w, p);
      var k := e.acquired[|e.acquired| - 1];
      assert k in e.leases;
    }
    forall q | q in w.executors && q != p ensures ExecutorOk(w', w.executors[q]) {
      assert ExecutorOk(w, w.executors[q]) && Apart(e, w.executors[q]);
    }
  }

  lemma OtherStepKeepsInv(w: World, step: Step, ttl: int)
    requires Inv(w) && Enabled(w, step) && (step.Work? || step.Fail? || step.Vanish? || step.Tick?)
    ensures Inv(Exec(w, step, ttl))
  {
    var w' := Exec(w, step, ttl);
    forall q | q in w'.executors ensures ExecutorOk(w', w'.executors[q]) {
      assert ExecutorOk(w, w.executors[q]);
    }
  }

  lemma StepKeepsInv(w: World, step: Step, ttl: int)
    requires Inv(w) && (Enabled(w, step) ==> !Breaks(w, step, ttl))
    ensures Inv(Exec(w, step, ttl))
  {
    hide Inv, Breaks, BeginStep, AcquireStep, RenewStep, FinishStep, ReleaseStep;
    if Enabled(w, step) {
      match step
      case Begin(p, t, keys) => BeginKeepsInv(w, p, t, keys, ttl);
      case Acquire(p) => AcquireKeepsInv(w, p, ttl);
      case Renew(p) => RenewKeepsInv(w, p, ttl);
      case Finish(p, status) => FinishKeepsInv(w, p, status);
      case Release(p) => ReleaseKeepsInv(w, p);
      case _ => OtherStepKeepsInv(w, step, ttl);
    }
  }

  /** From an exclusive state a step breaks exclusion if and only if it begins a task whose executor is overdue
      or acquires a key that another executor let lapse. */
  lemma StepBreaksExactly(w: World, step: Step, ttl: int)
    requires Inv(w) && Enabled(w, step)
    ensures Exclusive(Exec(w, step, ttl)) <==> !Breaks(w, step, ttl)
    ensures Exclusive(Exec(w, step, ttl)) ==> Inv(Exec(w, step, ttl))
  {
    if !Breaks(w, step, ttl) {
      StepKeepsInv(w, step, ttl);
    } else if step.Begin? {
      var q :| q in w.executors && w.executors[q].task == step.task && Overdue(w, w.executors[q], ttl);
      BeginBreaks(w, step.pid, step.task, step.keys, q, ttl);
    } else {
      var q :| q in w.executors && q != step.pid && Lapsed(w, w.executors[q], w.executors[step.pid].stage.todo[0]);
      AcquireBreaks(w, step.pid, q, ttl);
    }
  }

  // ---- Runs ----

  ghost predicate AlwaysExclusive(w: World, steps: seq<Step>, ttl: int)
    decreases |steps|
  {
    Exclusive(w) && (steps != [] ==> AlwaysExclusive(Exec(w, steps[0], ttl), steps[1..], ttl))
  }

  ghost predicate NeverBreaks(w: World, steps: seq<Step>, ttl: int)
    decreases |steps|
  {
    steps != [] ==>
      (Enabled(w, steps[0]) ==> !Breaks(w, steps[0], ttl)) && NeverBreaks(Exec(w, steps[0], ttl), steps[1..], ttl)
  }

  /** Over every interleaving: at no time do two executors hold a common key or execute one task, if and only if
      none of its steps is one of the two breaking ones. */
  lemma {:induction false} ExclusiveRunsExactly(w: World, steps: seq<Step>, ttl: int)
    requires Inv(w)
    ensures AlwaysExclusive(w, steps, ttl) <==> NeverBreaks(w, steps, ttl)
    ensures NeverBreaks(w, steps, ttl) ==> Inv(Run(w, steps, ttl))
    decreases |steps|
  {
    if steps != [] {
      var w' := Exec(w, steps[0], ttl);
      if Enabled(w, steps[0]) { StepBreaksExactly(w, steps[0], ttl); }
      if Exclusive(w') { ExclusiveRunsExactly(w', steps[1..], ttl); }
    }
  }

  const START := World(Db(map[], map[], map[]), 0, map[], {})

  lemma StartOk()
    ensures Inv(START)
  {
  }

  /** No executor lets a lease it relies on lapse, and one without a lease gives up within the TTL of its begin. */
  ghost predicate OnTime(w: World, ttl: int) {
    forall p :: p in w.executors ==>
      var e := w.executors[p];
      && (forall k :: k in e.leases ==> w.now < e.leases[k])
      && (Executing(e) && e.leases == map[] ==> w.now <= e.begunAt + ttl)
  }

  ghost predicate AlwaysOnTime(w: World, steps: seq<Step>, ttl: int)
    decreases |steps|
  {
    OnTime(w, ttl) && (steps != [] ==> AlwaysOnTime(Exec(w, steps[0], ttl), steps[1..], ttl))
  }

  lemma OnTimeNeverBreaks(w: World, step: Step, ttl: int)
    requires Inv(w) && OnTime(w, ttl) && Enabled(w, step)
    ensures !Breaks(w, step, ttl)
  {
    forall q | q in w.executors ensures !Overdue(w, w.executors[q], ttl) {
      var e := w.executors[q];
      assert ExecutorOk(w, e);
      if e.leases != map[] {
        var k :| k in e.leases;
        assert w.db.locks[k].owner == e.task && w.db.locks[k].expiresAt > w.now;
      }
    }
  }

  /** Executors that keep their times are enough: from an empty store, over every interleaving, no two of them ever
      hold a common key and no two ever execute the same task. */
  lemma LeaseExclusion(steps: seq<Step>, ttl: int)
    requires AlwaysOnTime(START, steps, ttl)
    ensures AlwaysExclusive(START, steps, ttl) && Inv(Run(START, steps, ttl))
  {
    StartOk();
    OnTimeRunNeverBreaks(START, steps, ttl);
    ExclusiveRunsExactly(START, steps, ttl);
  }

  lemma {:induction false} OnTimeRunNeverBreaks(w: World, steps: seq<Step>, ttl: int)
    requires Inv(w) && AlwaysOnTime(w, steps, ttl)
    ensures NeverBreaks(w, steps, ttl)
    decreases |steps|
  {
    if steps != [] {
      if Enabled(w, steps[0]) { OnTimeNeverBreaks(w, steps[0], ttl); }
      StepKeepsInv(w, steps[0], ttl);
      OnTimeRunNeverBreaks(Exec(w, steps[0], ttl), steps[1..], ttl);
    }
  }

  // ---- No row without a holder ----

  /** The row is the lease of an executor, or was left behind by one that vanished. */
  ghost predicate HeldOrAbandoned(w: World, k: LockKey)
    requires k in w.db.locks
  {
    || (exists p :: p in w.executors && k in w.executors[p].leases
                    && Lock(w.executors[p].task, w.executors[p].leases[k]) == w.db.locks[k])
    || (k, w.db.locks[k]) in w.abandoned
  }

  /** Every lock row that has not expired is somebody's. */
  ghost predicate RowsAccounted(w: World) {
    forall k :: k in w.db.locks && w.now < w.db.locks[k].expiresAt ==> HeldOrAbandoned(w, k)
  }

  lemma AcquireAccounts(w: World, p: Pid, ttl: int)
    requires RowsAccounted(w) && Enabled(w, Acquire(p))
    ensures RowsAccounted(AcquireStep(w, p, ttl))
  {
    var w', key := AcquireStep(w, p, ttl), w.executors[p].stage.todo[0];
    forall k | k in w'.db.locks && w'.now < w'.db.locks[k].expiresAt ensures HeldOrAbandoned(w', k) {
      if k == key && Acquired(w.db, key, w.executors[p].task, w.now, ttl).Ok? {
        assert p in w'.executors && k in w'.executors[p].leases;
      } else {
        assert HeldOrAbandoned(w, k);
        if q :| q in w.executors && k in w.executors[q].leases
                && Lock(w.executors[q].task, w.executors[q].leases[k]) == w.db.locks[k] {
          assert q in w'.executors && w'.executors[q].task == w.executors[q].task && k in w'.executors[q].leases
                 && w'.executors[q].leases[k] == w.executors[q].leases[k];
        }
      }
    }
  }

  lemma RenewAccounts(w: World, p: Pid, ttl: int)
    requires RowsAccounted(w) && Enabled(w, Renew(p))
    ensures RowsAccounted(RenewStep(w, p, ttl))
  {
    var w', e := RenewStep(w, p, ttl), w.executors[p];
    var renewed := Renewed(w.db, e.leases.Keys, e.task, w.now, ttl).Ok?;
    forall k | k in w'.db.locks && w'.now < w'.db.locks[k].expiresAt ensures HeldOrAbandoned(w', k) {
      if k in e.leases && renewed {
        assert p in w'.executors && k in w'.executors[p].leases;
      } else {
        assert HeldOrAbandoned(w, k);
        if q :| q in w.executors && k in w.executors[q].leases
                && Lock(w.executors[q].task, w.executors[q].leases[k]) == w.db.locks[k] {
          assert q in w'.executors && w'.executors[q].task == w.executors[q].task && k in w'.executors[q].leases
                 && w'.executors[q].leases[k] == w.executors[q].leases[k];
        }
      }
    }
  }

  lemma ReleaseAccounts(w: World, p: Pid)
    requires RowsAccounted(w) && Enabled(w, Release(p))
    requires forall k :: k in w.executors[p].leases ==> k in w.executors[p].acquired
    ensures RowsAccounted(ReleaseStep(w, p))
  {
    var w', e := ReleaseStep(w, p), w.executors[p];
    forall k | k in w'.db.locks && w'.now < w'.db.locks[k].expiresAt ensures HeldOrAbandoned(w', k) {
      assert HeldOrAbandoned(w, k);
      if q :| q in w.executors && k in w.executors[q].leases
              && Lock(w.executors[q].task, w.executors[q].leases[k]) == w.db.locks[k] {
        assert q in w'.executors && w'.executors[q].task == w.executors[q].task && k in w'.executors[q].leases
               && w'.executors[q].leases[k] == w.executors[q].leases[k];
      }
    }
  }

  /** A step that leaves rows and executors as they are, up to what does not concern leases, keeps rows accounted. */
  lemma SameLeasesAccount(w: World, w': World)
    requires RowsAccounted(w) && w.now <= w'.now && w.abandoned <= w'.abandoned
    requires forall k :: k in w'.db.locks ==> k in w.db.locks && w'.db.locks[k] == w.db.locks[k]
    requires forall q :: q in w.executors ==>
               if q in w'.executors then
                 w'.executors[q].task == w.executors[q].task && w'.executors[q].leases == w.executors[q].leases
               else LeasesOf(w.executors[q]) <= w'.abandoned
    ensures RowsAccounted(w')
  {
    forall k | k in w'.db.locks && w'.now < w'.db.locks[k].expiresAt ensures HeldOrAbandoned(w', k) {
      assert HeldOrAbandoned(w, k);
      if q :| q in w.executors && k in w.executors[q].leases
              && Lock(w.executors[q].task, w.executors[q].leases[k]) == w.db.locks[k] {
        if q !in w'.executors { assert (k, w.db.locks[k]) in LeasesOf(w.executors[q]); }
      }
    }
  }

  lemma StepAccounts(w: World, step: Step, ttl: int)
    requires RowsAccounted(w) && forall p :: p in w.executors ==> KeysOk(w.executors[p])
    ensures RowsAccounted(Exec(w, step, ttl))
  {
    if Enabled(w, step) {
      match step
      case Acquire(p) => AcquireAccounts(w, p, ttl);
      case Renew(p) => RenewAccounts(w, p, ttl);
      case Release(p) => ReleaseAccounts(w, p);
      case _ => SameLeasesAccount(w, Exec(w, step, ttl));
    }
  }

  lemma AcquirerKeys(w: World, p: Pid, ttl: int)
    requires Enabled(w, Acquire(p)) && KeysOk(w.executors[p])
    ensures KeysOk(AcquireStep(w, p, ttl).executors[p])
  {
    var e, k := w.executors[p], w.executors[p].stage.todo[0];
    var rest := e.stage.todo[1..];
    assert e.stage.todo == [k] + rest && k in e.stage.todo;
    forall i | 0 <= i < |e.acquired| ensures e.acquired[i] != k { assert e.acquired[i] in e.acquired; }
    forall x | x in rest ensures x in e.stage.todo && x != k {}
  }

  /** Bookkeeping of keys does not depend on exclusion. */
  lemma StepKeepsKeys(w: World, step: Step, ttl: int)
    requires forall p :: p in w.executors ==> KeysOk(w.executors[p])
    ensures forall p :: p in Exec(w, step, ttl).executors ==> KeysOk(Exec(w, step, ttl).executors[p])
  {
    if Enabled(w, step) {
      match step
      case Acquire(p) => AcquirerKeys(w, p, ttl);
      case Release(p) =>
        var e := w.executors[p];
        assert KeysOk(e);
        if e.acquired != [] { LastLeaseDropped(e.acquired, e.leases); }
      case _ =>
    }
  }

  /** In every run the unexpired lock rows are leases of executors that have not released them, or were left behind
      by executors that vanished. */
  lemma {:induction false} RunAccounts(w: World, steps: seq<Step>, ttl: int)
    requires RowsAccounted(w) && forall p :: p in w.executors ==> KeysOk(w.executors[p])
    ensures RowsAccounted(Run(w, steps, ttl))
    ensures (forall i :: 0 <= i < |steps| ==> !steps[i].Vanish?) ==> Run(w, steps, ttl).abandoned == w.abandoned
    decreases |steps|
  {
    if steps != [] {
      StepAccounts(w, steps[0], ttl);
      StepKeepsKeys(w, steps[0], ttl);
      RunAccounts(Exec(w, steps[0], ttl), steps[1..], ttl);
    }
  }

  /** If no executor vanishes and none breaks exclusion, the unexpired lock rows are exactly the unexpired leases of
      the executors that are still there: one that ran to its end leaves none. */
  lemma RowsAreLeases(steps: seq<Step>, ttl: int, k: LockKey)
    requires NeverBreaks(START, steps, ttl) && forall i :: 0 <= i < |steps| ==> !steps[i].Vanish?
    ensures var w := Run(START, steps, ttl);
            (k in w.db.locks && w.now < w.db.locks[k].expiresAt)
            <==> exists p :: p in w.executors && k in w.executors[p].leases && w.now < w.executors[p].leases[k]
  {
    StartOk();
    RunAccounts(START, steps, ttl);
    ExclusiveRunsExactly(START, steps, ttl);
    var w := Run(START, steps, ttl);
    if k in w.db.locks && w.now < w.db.locks[k].expiresAt { assert HeldOrAbandoned(w, k); }
    if p :| p in w.executors && k in w.executors[p].leases && w.now < w.executors[p].leases[k] {
      assert ExecutorOk(w, w.executors[p]);
    }
  }

  // ---- Runs that break it ----

  lemma NewTaskBegins(w: World, p: Pid, t: TaskId, keys: seq<LockKey>, ttl: int)
    requires Enabled(w, Begin(p, t, keys)) && t !in w.db.tasks
    ensures var w' := Exec(w, Begin(p, t, keys), ttl);
            && w'.executors == w.executors[p := Executor(t, w.now, Acquiring(keys), [], map[])]
            && w'.db.tasks == w.db.tasks[t := Task(Running, w.now, 0)] && w'.db.locks == w.db.locks && w'.now == w.now
  {
  }

  lemma FreeKeyIsAcquired(w: World, p: Pid, ttl: int)
    requires Enabled(w, Acquire(p)) && w.executors[p].stage.todo[0] !in Unexpired(w.db.locks, w.now)
    ensures var e, k, w' := w.executors[p], w.executors[p].stage.todo[0], Exec(w, Acquire(p), ttl);
            && w'.executors == w.executors[p := e.(stage := Acquiring(e.stage.todo[1..]), acquired := e.acquired + [k],
                                                   leases := e.leases[k := w.now + ttl])]
            && w'.db.tasks == w.db.tasks && w'.now == w.now
            && w'.db.locks == Unexpired(w.db.locks, w.now)[k := Lock(e.task, w.now + ttl)]
  {
  }

  /** One renewal missed: the second executor acquires the key the first still uses. */
  lemma LateRenewalBreaksExclusion()
    ensures var a, b, k := TaskId("a"), TaskId("b"), LockKey("k");
            !Exclusive(Run(START, [Begin(0, a, [k]), Acquire(0), Work(0), Tick(10), Begin(1, b, [k]), Acquire(1)], 10))
  {
    hide BeginStep, AcquireStep;
    var a, b, k := TaskId("a"), TaskId("b"), LockKey("k");
    NewTaskBegins(START, 0, a, [k], 10);
    var w1 := Exec(START, Begin(0, a, [k]), 10);
    FreeKeyIsAcquired(w1, 0, 10);
    var w2 := Exec(w1, Acquire(0), 10);
    var w4 := Exec(Exec(w2, Work(0), 10), Tick(10), 10);
    NewTaskBegins(w4, 1, b, [k], 10);
    var w5 := Exec(w4, Begin(1, b, [k]), 10);
    FreeKeyIsAcquired(w5, 1, 10);
    var w6 := Exec(w5, Acquire(1), 10);
    assert k in w6.executors[0].leases.Keys && k in w6.executors[1].leases.Keys;
    assert !Apart(w6.executors[0], w6.executors[1]);
    RunFour(w2, Work(0), Tick(10), Begin(1, b, [k]), Acquire(1), 10);
    RunTwo(START, Begin(0, a, [k]), Acquire(0), [Work(0), Tick(10), Begin(1, b, [k]), Acquire(1)], 10);
  }

  /** No key at all: once the TTL has passed, a second executor is told to run the task of the first. */
  lemma KeylessTaskRunsTwice()
    ensures var a := TaskId("a"); !Exclusive(Run(START, [Begin(0, a, []), Work(0), Tick(11), Begin(1, a, [])], 10))
  {
    hide BeginStep;
    var a := TaskId("a");
    StartOk();
    NewTaskBegins(START, 0, a, [], 10);
    var w1 := Exec(START, Begin(0, a, []), 10);
    StepKeepsInv(START, Begin(0, a, []), 10);
    var w2 := Exec(w1, Work(0), 10);
    StepKeepsInv(w1, Work(0), 10);
    var w3 := Exec(w2, Tick(11), 10);
    StepKeepsInv(w2, Tick(11), 10);
    assert Overdue(w3, w3.executors[0], 10);
    StepBreaksExactly(w3, Begin(1, a, []), 10);
    RunFour(START, Begin(0, a, []), Work(0), Tick(11), Begin(1, a, []), 10);
  }

  lemma RunTwo(w: World, a: Step, b: Step, rest: seq<Step>, ttl: int)
    ensures Run(w, [a, b] + rest, ttl) == Run(Exec(Exec(w, a, ttl), b, ttl), rest, ttl)
  {
    var steps := [a, b] + rest;
    assert steps[1..] == [b] + rest && steps[1..][1..] == rest;
    var w1 := Exec(w, a, ttl);
    assert Run(w, steps, ttl) == Run(w1, steps[1..], ttl);
    assert Run(w1, steps[1..], ttl) == Run(Exec(w1, b, ttl), steps[1..][1..], ttl);
  }

  lemma RunFour(w: World, a: Step, b: Step, c: Step, d: Step, ttl: int)
    ensures Run(w, [a, b, c, d], ttl) == Exec(Exec(Exec(Exec(w, a, ttl), b, ttl), c, ttl), d, ttl)
  {
    RunTwo(w, a, b, [c, d], ttl);
    RunTwo(Exec(Exec(w, a, ttl), b, ttl), c, d, [], ttl);
    assert [a, b, c, d] == [a, b] + [c, d] && [c, d] == [c, d] + [];
  }
}
