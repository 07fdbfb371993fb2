/**
  The lock order of the server, and the tasks that outlive their request: every task takes its locks in
  the nesting the code uses, so no set of tasks can ever wait for each other in a circle, and a started
  transaction or install runs to its end although its request is cancelled.

  Asyncio locks and the build semaphore serve their waiters first come, first served; the file lock is
  polled, so any waiter may get it. Cancelling an asyncio task also cancels the one it
  awaits, unless that is awaited through `asyncio.shield`.
 */
module LockOrder {
  datatype Option<+T> = None | Some(value: T)

  datatype Resource =
    | WorkspaceLock(workspace: string)
    | FileLock(workspace: string)
    | ForkLock(user: string)
    | BuildLock(workspace: string)
    | UserBuildLock(user: string)
    | InstallLock
    | BuildSlot                        // the semaphore in run_build
    | RefreshLock(user: string)

  /** What runs in a task of its own: `_run_locked` with a transaction, and `_install_one`. */
  datatype Inner = Transaction(workspace: string, repairs: seq<string>) | Install(toolchain: string)

  function Rank(r: Resource): nat {
    match r
    case WorkspaceLock(_) => 2
    case FileLock(_) => 3
    case ForkLock(_) => 4
    case BuildLock(_) => 5
    case UserBuildLock(_) => 6
    case InstallLock => 8
    case BuildSlot => 9
    case RefreshLock(_) => 10
  }

  const MAX_RANK := 10

  /** Waiting for an inner task has a place in the order too: below everything that task takes itself. */
  function Level(inner: Inner): nat {
    match inner
    case Transaction(_, _) => 1
    case Install(_) => 7
  }

  predicate Polled(r: Resource) {
    r.FileLock?
  }

  /** `Call` awaits an inner task, which it starts or, for an install that is running already, joins. */
  datatype Op = Acquire(r: Resource) | Release(r: Resource) | Work(duty: Duty) | Call(inner: Inner, shielded: bool)

  /** Repairing a user's fork and running a build need resources of their own. */
  datatype Duty = Main | RepairFork(user: string) | RunBuild

  /** What a task was started for; the first five are requests. */
  datatype Job =
    | Mutation(workspace: string, repairs: seq<string>)                 // by run_exclusive, with fork repairs, by user
    | GeneratePreview(workspace: string, user: string, toolchain: string)
    | ReadPreview(workspace: string)
    | Download(user: string, toolchain: string)
    | RefreshToken(user: string)
    | Cleanup(workspace: string)                                        // the cron scripts
    | Body(inner: Inner)

  predicate IsRequest(job: Job) {
    !job.Cleanup? && !job.Body?
  }

  function Within(r: Resource, body: seq<Op>): seq<Op> {
    [Acquire(r)] + body + [Release(r)]
  }

  function Build(user: string, toolchain: string): seq<Op> {
    Within(UserBuildLock(user), [Call(Install(toolchain), true)] + Within(BuildSlot, [Work(RunBuild)]))
  }

  function Repairs(users: seq<string>): seq<Op> {
    if users == [] then [] else Within(ForkLock(users[0]), [Work(RepairFork(users[0]))]) + Repairs(users[1..])
  }

  function Program(job: Job): seq<Op> {
    match job
    case Mutation(w, repairs) => [Call(Transaction(w, repairs), true)]
    case GeneratePreview(w, user, toolchain) =>
      [Call(Install(toolchain), true)] + Within(BuildLock(w), Build(user, toolchain) + [Work(Main)])
    case ReadPreview(w) => Within(BuildLock(w), [Work(Main)])
    case Download(user, toolchain) => [Call(Install(toolchain), true)] + Build(user, toolchain)
    case RefreshToken(user) => Within(RefreshLock(user), [Work(Main)])
    case Cleanup(w) => Within(FileLock(w), [Work(Main)])
    case Body(inner) => InnerProgram(inner)
  }

  function InnerProgram(inner: Inner): seq<Op> {
    match inner
    case Transaction(w, repairs) =>
      Within(WorkspaceLock(w), Within(FileLock(w), [Work(Main)] + Repairs(repairs) + [Work(Main)]))
    case Install(_) => Within(InstallLock, [Work(Main)])
  }

  // --- The machine ---

  type TaskId = nat

  /**
    What is left of a task's program, and the resources it holds, in the order it took them. A waiting
    task waits for the resource, or for the inner task `child`, of its next operation.
   */
  datatype Task = Task(job: Job, ops: seq<Op>, held: seq<Resource>, waiting: bool, child: TaskId)

  datatype State = State(tasks: seq<Task>, queues: map<Resource, seq<TaskId>>)

  datatype Action =
    | Start(job: Job)
    | DoWork(t: TaskId)
    | Raise(t: TaskId)        // its own work, or the call it makes, fails
    | DoRelease(t: TaskId)
    | Request(t: TaskId)
    | Grant(t: TaskId)
    | Begin(t: TaskId)        // starts or joins the inner task of a call
    | PassBy(t: TaskId)       // the toolchain is installed, or the install refused and that ignored
    | Resume(t: TaskId)       // the inner task has ended
    | Cancel(t: TaskId)

  function Queue(s: State, r: Resource): seq<TaskId> {
    if r in s.queues then s.queues[r] else []
  }

  function Holders(s: State, r: Resource): set<TaskId> {
    set t | 0 <= t < |s.tasks| && r in s.tasks[t].held
  }

  function Capacity(r: Resource, slots: nat): nat {
    if r.BuildSlot? then slots else 1
  }

  predicate Free(s: State, r: Resource, slots: nat) {
    |Holders(s, r)| < Capacity(r, slots)
  }

  /** An unfinished task for the job, among the first `n`. */
  function Unfinished(tasks: seq<Task>, job: Job, n: nat): (found: Option<TaskId>)
    requires n <= |tasks|
    ensures found.Some? ==> found.value < n && tasks[found.value].job == job && tasks[found.value].ops != []
  {
    if n == 0 then None
    else if tasks[n - 1].job == job && tasks[n - 1].ops != [] then Some(n - 1)
    else Unfinished(tasks, job, n - 1)
  }

  /** Installs are registered by name and joined; every transaction is a task of its own. */
  function Joined(s: State, inner: Inner): Option<TaskId> {
    if inner.Install? then Unfinished(s.tasks, Body(inner), |s.tasks|) else None
  }

  predicate NextIs(s: State, t: TaskId, waiting: bool) {
    t < |s.tasks| && s.tasks[t].ops != [] && s.tasks[t].waiting == waiting
  }

  predicate ChildEnded(s: State, t: TaskId) {
    t < |s.tasks| && s.tasks[t].child < |s.tasks| && s.tasks[s.tasks[t].child].ops == []
  }

  predicate Enabled(s: State, a: Action, slots: nat) {
    match a
    case Start(job) => job.Body? ==> job.inner.Install? && Joined(s, job.inner) == None
    case DoWork(t) => NextIs(s, t, false) && s.tasks[t].ops[0].Work?
    case Raise(t) =>
      (NextIs(s, t, false) && (s.tasks[t].ops[0].Work? || s.tasks[t].ops[0].Call?)) ||
      (NextIs(s, t, true) && s.tasks[t].ops[0].Call? && ChildEnded(s, t))
    case DoRelease(t) => NextIs(s, t, false) && s.tasks[t].ops[0].Release? && s.tasks[t].held != []
    case Request(t) => NextIs(s, t, false) && s.tasks[t].ops[0].Acquire?
    case Grant(t) =>
      NextIs(s, t, true) && s.tasks[t].ops[0].Acquire? &&
      var r := s.tasks[t].ops[0].r;
      Free(s, r, slots) && Queue(s, r) != [] && (if Polled(r) then t in Queue(s, r) else Queue(s, r)[0] == t)
    case Begin(t) => NextIs(s, t, false) && s.tasks[t].ops[0].Call?
    case PassBy(t) => NextIs(s, t, false) && s.tasks[t].ops[0].Call? && s.tasks[t].ops[0].inner.Install?
    case Resume(t) => NextIs(s, t, true) && s.tasks[t].ops[0].Call? && ChildEnded(s, t)
    case Cancel(t) => t < |s.tasks| && s.tasks[t].ops != [] && IsRequest(s.tasks[t].job)
  }

  /** The `finally` blocks of a task that is cancelled or raises. */
  function Unwind(held: seq<Resource>): seq<Op> {
    if held == [] then [] else [Release(held[|held| - 1])] + Unwind(held[..|held| - 1])
  }

  function Without(queue: seq<TaskId>, t: TaskId): seq<TaskId> {
    if queue == [] then [] else (if queue[0] == t then [] else [queue[0]]) + Without(queue[1..], t)
  }

  function Set(s: State, t: TaskId, task: Task): State
    requires t < |s.tasks|
  {
    s.(tasks := s.tasks[t := task])
  }

  /** Goes on with the operation after the next one. */
  function Advanced(task: Task): Task
    requires task.ops != []
  {
    task.(ops := task.ops[1..], waiting := false)
  }

  /** Gives up what it waits for, and releases what it holds. */
  function Unwound(s: State, t: TaskId): State
    requires t < |s.tasks|
  {
    var task := s.tasks[t];
    var s' := Set(s, t, task.(ops := Unwind(task.held), waiting := false));
    if task.waiting && task.ops != [] && task.ops[0].Acquire?
    then s'.(queues := s.queues[task.ops[0].r := Without(Queue(s, task.ops[0].r), t)]) else s'
  }

  /** Whether a cancellation reaches the inner task that is awaited. */
  predicate ReachesChild(s: State, t: TaskId)
    requires t < |s.tasks|
  {
    s.tasks[t].waiting && s.tasks[t].ops != [] && s.tasks[t].ops[0].Call? && !s.tasks[t].ops[0].shielded &&
    s.tasks[t].child < |s.tasks|
  }

  function Next(s: State, a: Action, slots: nat): State
    requires Enabled(s, a, slots)
  {
    match a
    case Start(job) => s.(tasks := s.tasks + [Task(job, Program(job), [], false, 0)])
    case DoWork(t) => Set(s, t, Advanced(s.tasks[t]))
    case Raise(t) => Unwound(s, t)
    case DoRelease(t) => Set(s, t, Advanced(s.tasks[t]).(held := s.tasks[t].held[..|s.tasks[t].held| - 1]))
    case Request(t) =>
      var r := s.tasks[t].ops[0].r;
      Set(s, t, s.tasks[t].(waiting := true)).(queues := s.queues[r := Queue(s, r) + [t]])
    case Grant(t) =>
      var r := s.tasks[t].ops[0].r;
      Set(s, t, Advanced(s.tasks[t]).(held := s.tasks[t].held + [r])).(queues := s.queues[r := Without(Queue(s, r), t)])
    case Begin(t) =>
      var inner := s.tasks[t].ops[0].inner;
      if Joined(s, inner).Some? then Set(s, t, s.tasks[t].(waiting := true, child := Joined(s, inner).value))
      else
        var started := Task(Body(inner), InnerProgram(inner), [], false, 0);
        State(s.tasks[t := s.tasks[t].(waiting := true, child := |s.tasks|)] + [started], s.queues)
    case PassBy(t) => Set(s, t, Advanced(s.tasks[t]))
    case Resume(t) => Set(s, t, Advanced(s.tasks[t]))
    case Cancel(t) =>
      if ReachesChild(s, t) && s.tasks[t].child != t then Unwound(Unwound(s, t), s.tasks[t].child) else Unwound(s, t)
  }

  // --- What keeps the nesting ---

  /**
    What a task holds after `ops`, if these take resources and await inner tasks in increasing order, and
    release last in first out.
   */
  function Effect(held: seq<Resource>, ops: seq<Op>): Option<seq<Resource>>
    decreases |ops|
  {
    if ops == [] then Some(held) else
    match ops[0]
    case Work(_) => Effect(held, ops[1..])
    case Acquire(r) => if forall h :: h in held ==> Rank(h) < Rank(r) then Effect(held + [r], ops[1..]) else None
    case Release(r) => if held != [] && held[|held| - 1] == r then Effect(held[..|held| - 1], ops[1..]) else None
    case Call(inner, _) => if forall h :: h in held ==> Rank(h) < Level(inner) then Effect(held, ops[1..]) else None
  }

  /** The rest of a program that keeps the lock order and gives everything back. */
  predicate WellNested(held: seq<Resource>, ops: seq<Op>) {
    Effect(held, ops) == Some([])
  }

  function Floor(job: Job): nat {
    if job.Body? then Level(job.inner) else 0
  }

  /** Inner tasks only take what is above the level they are awaited at, and call nobody; all calls are shielded. */
  predicate OpOk(job: Job, op: Op) {
    match op
    case Acquire(r) => Rank(r) > Floor(job)
    case Call(_, shielded) => shielded && !job.Body?
    case _ => true
  }

  predicate OpsOk(job: Job, ops: seq<Op>) {
    forall op :: op in ops ==> OpOk(job, op)
  }

  ghost predicate TaskOk(task: Task) {
    WellNested(task.held, task.ops) && OpsOk(task.job, task.ops) &&
    (task.waiting ==> task.ops != [] && (task.ops[0].Acquire? || task.ops[0].Call?))
  }

  ghost predicate WaitsFor(s: State, t: TaskId, r: Resource) {
    t < |s.tasks| && s.tasks[t].waiting && s.tasks[t].ops != [] && s.tasks[t].ops[0] == Acquire(r)
  }

  ghost predicate TasksOk(s: State) {
    forall t :: 0 <= t < |s.tasks| ==> TaskOk(s.tasks[t])
  }

  ghost predicate ChildOk(s: State, task: Task) {
    task.waiting && task.ops != [] && task.ops[0].Call? ==>
      task.child < |s.tasks| && s.tasks[task.child].job == Body(task.ops[0].inner)
  }

  ghost predicate ChildrenOk(s: State) {
    forall t :: 0 <= t < |s.tasks| ==> ChildOk(s, s.tasks[t])
  }

  ghost predicate QueuesOk(s: State) {
    forall r, t :: t in Queue(s, r) <==> WaitsFor(s, t, r)
  }

  ghost predicate CapacityOk(s: State, slots: nat) {
    forall r :: |Holders(s, r)| <= Capacity(r, slots)
  }

  ghost predicate Inv(s: State, slots: nat) {
    TasksOk(s) && ChildrenOk(s) && QueuesOk(s) && CapacityOk(s, slots)
  }

  lemma {:induction false} EffectConcat(held: seq<Resource>, a: seq<Op>, b: seq<Op>)
    requires Effect(held, a).Some?
    ensures Effect(held, a + b) == Effect(Effect(held, a).value, b)
    decreases |a|
  {
    if a == [] {
      assert a + b == b;
    } else {
      assert (a + b)[0] == a[0] && (a + b)[1..] == a[1..] + b;
      match a[0]
      case Work(_) => EffectConcat(held, a[1..], b);
      case Acquire(r) => EffectConcat(held + [r], a[1..], b);
      case Release(r) => EffectConcat(held[..|held| - 1], a[1..], b);
      case Call(_, _) => EffectConcat(held, a[1..], b);
    }
  }

  /** A body that gives back what it takes can be put inside a resource of higher rank than everything held. */
  lemma WithinEffect(held: seq<Resource>, r: Resource, body: seq<Op>)
    requires forall h :: h in held ==> Rank(h) < Rank(r)
    requires Effect(held + [r], body) == Some(held + [r])
    ensures Effect(held, Within(r, body)) == Some(held)
  {
    assert Within(r, body)[1..] == body + [Release(r)];
    EffectConcat(held + [r], body, [Release(r)]);
    assert (held + [r])[..|held|] == held;
  }

  lemma OpEffect(held: seq<Resource>, op: Op)
    requires op.Work? || (op.Call? && forall h :: h in held ==> Rank(h) < Level(op.inner))
    ensures Effect(held, [op]) == Some(held)
  {
  }

  lemma {:induction false} RepairsNested(held: seq<Resource>, users: seq<string>)
    requires forall h :: h in held ==> Rank(h) < Rank(ForkLock(""))
    ensures Effect(held, Repairs(users)) == Some(held)
    decreases |users|
  {
    if users != [] {
      OpEffect(held + [ForkLock(users[0])], Work(RepairFork(users[0])));
      WithinEffect(held, ForkLock(users[0]), [Work(RepairFork(users[0]))]);
      RepairsNested(held, users[1..]);
      EffectConcat(held, Within(ForkLock(users[0]), [Work(RepairFork(users[0]))]), Repairs(users[1..]));
    }
  }

  lemma BuildNested(held: seq<Resource>, user: string, toolchain: string)
    requires forall h :: h in held ==> Rank(h) < Rank(UserBuildLock(user))
    ensures Effect(held, Build(user, toolchain)) == Some(held)
  {
    var inner, install := held + [UserBuildLock(user)], [Call(Install(toolchain), true)];
    OpEffect(inner + [BuildSlot], Work(RunBuild));
    WithinEffect(inner, BuildSlot, [Work(RunBuild)]);
    OpEffect(inner, install[0]);
    EffectConcat(inner, install, Within(BuildSlot, [Work(RunBuild)]));
    WithinEffect(held, UserBuildLock(user), install + Within(BuildSlot, [Work(RunBuild)]));
  }

  lemma OpsConcat(job: Job, a: seq<Op>, b: seq<Op>)
    requires OpsOk(job, a) && OpsOk(job, b)
    ensures OpsOk(job, a + b)
  {
  }

  lemma OpsWithin(job: Job, r: Resource, body: seq<Op>)
    requires OpsOk(job, body) && Rank(r) > Floor(job)
    ensures OpsOk(job, Within(r, body))
  {
  }

  lemma {:induction false} RepairsOpsOk(job: Job, users: seq<string>)
    requires Rank(ForkLock("")) > Floor(job)
    ensures OpsOk(job, Repairs(users))
    decreases |users|
  {
    if users != [] {
      RepairsOpsOk(job, users[1..]);
      OpsWithin(job, ForkLock(users[0]), [Work(RepairFork(users[0]))]);
      OpsConcat(job, Within(ForkLock(users[0]), [Work(RepairFork(users[0]))]), Repairs(users[1..]));
    }
  }

  lemma TransactionOpsOk(w: string, repairs: seq<string>)
    ensures OpsOk(Body(Transaction(w, repairs)), InnerProgram(Transaction(w, repairs)))
  {
    var job := Body(Transaction(w, repairs));
    RepairsOpsOk(job, repairs);
    OpsConcat(job, [Work(Main)], Repairs(repairs));
    OpsConcat(job, [Work(Main)] + Repairs(repairs), [Work(Main)]);
    OpsWithin(job, FileLock(w), [Work(Main)] + Repairs(repairs) + [Work(Main)]);
    OpsWithin(job, WorkspaceLock(w), Within(FileLock(w), [Work(Main)] + Repairs(repairs) + [Work(Main)]));
  }

  lemma BuildOpsOk(job: Job, user: string, toolchain: string)
    requires !job.Body?
    ensures OpsOk(job, Build(user, toolchain))
  {
    OpsWithin(job, BuildSlot, [Work(RunBuild)]);
    OpsConcat(job, [Call(Install(toolchain), true)], Within(BuildSlot, [Work(RunBuild)]));
    OpsWithin(job, UserBuildLock(user), [Call(Install(toolchain), true)] + Within(BuildSlot, [Work(RunBuild)]));
  }

  /** Inner tasks take what is above their level and call nobody, and every call is shielded. */
  lemma ProgramOpsOk(job: Job)
    ensures OpsOk(job, Program(job))
  {
    match job
    case Body(Transaction(w, repairs)) => TransactionOpsOk(w, repairs);
    case Body(Install(_)) => OpsWithin(job, InstallLock, [Work(Main)]);
    case Mutation(_, _) =>
    case GeneratePreview(w, user, toolchain) =>
      BuildOpsOk(job, user, toolchain);
      OpsConcat(job, Build(user, toolchain), [Work(Main)]);
      OpsWithin(job, BuildLock(w), Build(user, toolchain) + [Work(Main)]);
      OpsConcat(job, [Call(Install(toolchain), true)], Within(BuildLock(w), Build(user, toolchain) + [Work(Main)]));
    case ReadPreview(w) => OpsWithin(job, BuildLock(w), [Work(Main)]);
    case Download(user, toolchain) =>
      BuildOpsOk(job, user, toolchain);
      OpsConcat(job, [Call(Install(toolchain), true)], Build(user, toolchain));
    case RefreshToken(user) => OpsWithin(job, RefreshLock(user), [Work(Main)]);
    case Cleanup(w) => OpsWithin(job, FileLock(w), [Work(Main)]);
  }

  lemma TransactionNested(w: string, repairs: seq<string>)
    ensures WellNested([], InnerProgram(Transaction(w, repairs)))
  {
    var ws, inner := [WorkspaceLock(w)], [WorkspaceLock(w)] + [FileLock(w)];
    var body := [Work(Main)] + Repairs(repairs) + [Work(Main)];
    RepairsNested(inner, repairs);
    OpEffect(inner, Work(Main));
    EffectConcat(inner, [Work(Main)], Repairs(repairs));
    EffectConcat(inner, [Work(Main)] + Repairs(repairs), [Work(Main)]);
    WithinEffect(ws, FileLock(w), body);
    assert [] + ws == ws;
    WithinEffect([], WorkspaceLock(w), Within(FileLock(w), body));
  }

  /** A lock with one piece of work inside. */
  lemma SimpleNested(r: Resource)
    ensures WellNested([], Within(r, [Work(Main)]))
  {
    OpEffect([] + [r], Work(Main));
    WithinEffect([], r, [Work(Main)]);
  }

  lemma PreviewNested(w: string, user: string, toolchain: string)
    ensures WellNested([], Program(GeneratePreview(w, user, toolchain)))
  {
    var held, install, build := [] + [BuildLock(w)], [Call(Install(toolchain), true)], Build(user, toolchain);
    BuildNested(held, user, toolchain);
    OpEffect(held, Work(Main));
    EffectConcat(held, build, [Work(Main)]);
    WithinEffect([], BuildLock(w), build + [Work(Main)]);
    OpEffect([], install[0]);
    EffectConcat([], install, Within(BuildLock(w), build + [Work(Main)]));
  }

  lemma DownloadNested(user: string, toolchain: string)
    ensures WellNested([], Program(Download(user, toolchain)))
  {
    BuildNested([], user, toolchain);
    OpEffect([], Call(Install(toolchain), true));
    EffectConcat([], [Call(Install(toolchain), true)], Build(user, toolchain));
  }

  /** Every program of the server keeps the lock order, gives everything back and shields what it awaits. */
  lemma ProgramsAreNested(job: Job)
    ensures WellNested([], Program(job)) && OpsOk(job, Program(job))
  {
    ProgramOpsOk(job);
    match job
    case Body(Transaction(w, repairs)) => TransactionNested(w, repairs);
    case Body(Install(_)) => SimpleNested(InstallLock);
    case Mutation(w, repairs) => OpEffect([], Call(Transaction(w, repairs), true));
    case GeneratePreview(w, user, toolchain) => PreviewNested(w, user, toolchain);
    case ReadPreview(w) => SimpleNested(BuildLock(w));
    case Download(user, toolchain) => DownloadNested(user, toolchain);
    case RefreshToken(user) => SimpleNested(RefreshLock(user));
    case Cleanup(w) => SimpleNested(FileLock(w));
  }

  lemma {:induction false} UnwindNested(held: seq<Resource>)
    ensures WellNested(held, Unwind(held)) && |Unwind(held)| == |held|
    ensures forall op :: op in Unwind(held) ==> op.Release?
    decreases |held|
  {
    if held != [] {
      assert Unwind(held)[1..] == Unwind(held[..|held| - 1]);
      UnwindNested(held[..|held| - 1]);
    }
  }

  // --- Every step keeps the invariant ---

  lemma {:induction false} WithoutMembers(queue: seq<TaskId>, t: TaskId, u: TaskId)
    ensures u in Without(queue, t) <==> u in queue && u != t
    decreases |queue|
  {
    if queue != [] {
      WithoutMembers(queue[1..], t, u);
    }
  }

  /** As every call is shielded, a cancellation stops where it is aimed. */
  lemma CancelStaysOutside(s: State, t: TaskId, slots: nat)
    requires TasksOk(s) && Enabled(s, Cancel(t), slots)
    ensures Next(s, Cancel(t), slots) == Unwound(s, t)
  {
    assert TaskOk(s.tasks[t]);
    assert s.tasks[t].ops[0] in s.tasks[t].ops;
  }

  lemma UnwoundOk(s: State, t: TaskId)
    requires TasksOk(s) && t < |s.tasks|
    ensures TasksOk(Unwound(s, t))
  {
    UnwindNested(s.tasks[t].held);
  }

  lemma AdvancedOk(task: Task, held: seq<Resource>)
    requires TaskOk(task) && task.ops != [] && WellNested(held, task.ops[1..])
    ensures TaskOk(Advanced(task).(held := held))
  {
    assert forall op :: op in task.ops[1..] ==> op in task.ops;
  }

  lemma StepKeepsTasks(s: State, a: Action, slots: nat)
    requires TasksOk(s) && Enabled(s, a, slots)
    ensures TasksOk(Next(s, a, slots))
  {
    match a
    case Start(job) => ProgramsAreNested(job);
    case Begin(t) => ProgramsAreNested(Body(s.tasks[t].ops[0].inner));
    case Cancel(t) =>
      CancelStaysOutside(s, t, slots);
      UnwoundOk(s, t);
    case Raise(t) => UnwoundOk(s, t);
    case Request(_) =>
    case Grant(t) => AdvancedOk(s.tasks[t], s.tasks[t].held + [s.tasks[t].ops[0].r]);
    case DoRelease(t) => AdvancedOk(s.tasks[t], s.tasks[t].held[..|s.tasks[t].held| - 1]);
    case DoWork(t) => AdvancedOk(s.tasks[t], s.tasks[t].held);
    case PassBy(t) => AdvancedOk(s.tasks[t], s.tasks[t].held);
    case Resume(t) => AdvancedOk(s.tasks[t], s.tasks[t].held);
  }

  /** No step changes what a task was started for. */
  lemma JobsStay(s: State, a: Action, slots: nat)
    requires Enabled(s, a, slots)
    ensures |s.tasks| <= |Next(s, a, slots).tasks|
    ensures forall t :: 0 <= t < |s.tasks| ==> Next(s, a, slots).tasks[t].job == s.tasks[t].job
  {
  }

  lemma StepKeepsChildren(s: State, a: Action, slots: nat)
    requires TasksOk(s) && ChildrenOk(s) && Enabled(s, a, slots)
    ensures ChildrenOk(Next(s, a, slots))
  {
    JobsStay(s, a, slots);
    if a.Cancel? { CancelStaysOutside(s, a.t, slots); }
    var s' := Next(s, a, slots);
    forall t | 0 <= t < |s'.tasks| ensures ChildOk(s', s'.tasks[t]) {
      assert t < |s.tasks| ==> ChildOk(s, s.tasks[t]);
    }
  }

  lemma StepKeepsQueues(s: State, a: Action, slots: nat)
    requires TasksOk(s) && QueuesOk(s) && Enabled(s, a, slots)
    ensures QueuesOk(Next(s, a, slots))
  {
    if a.Cancel? { CancelStaysOutside(s, a.t, slots); }
    forall r, t ensures t in Queue(Next(s, a, slots), r) <==> WaitsFor(Next(s, a, slots), t, r) {
      assert t in Queue(s, r) <==> WaitsFor(s, t, r);
      match a
      case Grant(u) => WithoutMembers(Queue(s, r), u, t);
      case Cancel(u) => UnwoundQueue(s, u, r, t);
      case Raise(u) => UnwoundQueue(s, u, r, t);
      case _ =>
    }
  }

  lemma UnwoundQueue(s: State, u: TaskId, r: Resource, t: TaskId)
    requires QueuesOk(s) && u < |s.tasks|
    ensures t in Queue(Unwound(s, u), r) <==> WaitsFor(Unwound(s, u), t, r)
  {
    UnwindNested(s.tasks[u].held);
    WithoutMembers(Queue(s, r), u, t);
    assert t in Queue(s, r) <==> WaitsFor(s, t, r);
  }

  /** Only a grant adds a holder, and only of what it grants. */
  lemma NewHolders(s: State, a: Action, slots: nat, r: Resource)
    requires TasksOk(s) && Enabled(s, a, slots)
    ensures Holders(Next(s, a, slots), r) <=
            if a.Grant? && r == s.tasks[a.t].ops[0].r then Holders(s, r) + {a.t} else Holders(s, r)
  {
    if a.Cancel? { CancelStaysOutside(s, a.t, slots); }
  }

  lemma StepKeepsCapacity(s: State, a: Action, slots: nat)
    requires TasksOk(s) && CapacityOk(s, slots) && Enabled(s, a, slots)
    ensures CapacityOk(Next(s, a, slots), slots)
  {
    forall r ensures |Holders(Next(s, a, slots), r)| <= Capacity(r, slots) {
      NewHolders(s, a, slots, r);
      SubsetSize(Holders(Next(s, a, slots), r),
                 if a.Grant? && r == s.tasks[a.t].ops[0].r then Holders(s, r) + {a.t} else Holders(s, r));
    }
  }

  lemma {:induction false} SubsetSize(a: set<TaskId>, b: set<TaskId>)
    requires a <= b
    ensures |a| <= |b|
    decreases |a|
  {
    if a != {} {
      var x :| x in a;
      SubsetSize(a - {x}, b - {x});
    }
  }

  lemma StepKeepsInv(s: State, a: Action, slots: nat)
    requires Inv(s, slots) && Enabled(s, a, slots)
    ensures Inv(Next(s, a, slots), slots)
  {
    StepKeepsTasks(s, a, slots);
    StepKeepsChildren(s, a, slots);
    StepKeepsQueues(s, a, slots);
    StepKeepsCapacity(s, a, slots);
  }

  // --- Runs ---

  const INITIAL := State([], map[])

  ghost predicate Possible(s: State, actions: seq<Action>, slots: nat)
    decreases |actions|
  {
    actions == [] || (Enabled(s, actions[0], slots) && Possible(Next(s, actions[0], slots), actions[1..], slots))
  }

  ghost function After(s: State, actions: seq<Action>, slots: nat): State
    requires Possible(s, actions, slots)
    decreases |actions|
  {
    if actions == [] then s else After(Next(s, actions[0], slots), actions[1..], slots)
  }

  lemma {:induction false} RunKeepsInv(s: State, actions: seq<Action>, slots: nat)
    requires Inv(s, slots) && Possible(s, actions, slots)
    ensures Inv(After(s, actions, slots), slots)
    decreases |actions|
  {
    if actions != [] {
      StepKeepsInv(s, actions[0], slots);
      RunKeepsInv(Next(s, actions[0], slots), actions[1..], slots);
    }
  }

  lemma ReachableInv(actions: seq<Action>, slots: nat)
    requires Possible(INITIAL, actions, slots)
    ensures Inv(After(INITIAL, actions, slots), slots)
  {
    forall r ensures |Holders(INITIAL, r)| <= Capacity(r, slots) {
      assert Holders(INITIAL, r) == {};
    }
    RunKeepsInv(INITIAL, actions, slots);
  }

  /** No two tasks hold the same lock, and no more builds run than there are slots. */
  lemma NeverOverbooked(actions: seq<Action>, slots: nat, r: Resource)
    requires Possible(INITIAL, actions, slots)
    ensures |Holders(After(INITIAL, actions, slots), r)| <= if r.BuildSlot? then slots else 1
  {
    ReachableInv(actions, slots);
  }

  // --- No deadlock ---

  /** The steps a task takes by itself, successfully. */
  predicate Succeeds(a: Action) {
    !a.Start? && !a.Cancel? && !a.Raise?
  }

  predicate Finished(s: State) {
    forall t :: 0 <= t < |s.tasks| ==> s.tasks[t].ops == []
  }

  /** The place in the order of what a waiting task waits for. */
  function WaitLevel(op: Op): nat {
    match op
    case Acquire(r) => Rank(r)
    case Call(inner, _) => Level(inner)
    case _ => 0
  }

  /** Following holders and inner tasks from a task that waits leads to a step: the levels rise on the way. */
  lemma {:induction false} FollowWaits(s: State, t: TaskId, slots: nat) returns (a: Action)
    requires Inv(s, slots) && slots > 0 && t < |s.tasks| && s.tasks[t].ops != []
    ensures Succeeds(a) && Enabled(s, a, slots)
    decreases if s.tasks[t].waiting then 1 + MAX_RANK - WaitLevel(s.tasks[t].ops[0]) else 0
  {
    var task := s.tasks[t];
    assert TaskOk(task) && ChildOk(s, task);
    if !task.waiting {
      a := match task.ops[0]
           case Work(_) => DoWork(t)
           case Release(_) => DoRelease(t)
           case Acquire(_) => Request(t)
           case Call(_, _) => Begin(t);
    } else if task.ops[0].Call? {
      if s.tasks[task.child].ops == [] {
        a := Resume(t);
      } else {
        ChildIsHigher(s, t);
        a := FollowWaits(s, task.child, slots);
      }
    } else {
      var r := task.ops[0].r;
      assert WaitsFor(s, t, r);
      assert t in Queue(s, r);
      if Free(s, r, slots) {
        var u := if Polled(r) then t else Queue(s, r)[0];
        assert u in Queue(s, r);
        assert WaitsFor(s, u, r);
        a := Grant(u);
      } else {
        var h := HolderIsHigher(s, t, slots);
        a := FollowWaits(s, h, slots);
      }
    }
  }

  lemma ChildIsHigher(s: State, t: TaskId)
    requires TasksOk(s) && ChildrenOk(s) && NextIs(s, t, true) && s.tasks[t].ops[0].Call?
    ensures var child := s.tasks[t].child;
            child < |s.tasks| && (s.tasks[child].waiting && s.tasks[child].ops != [] ==>
              WaitLevel(s.tasks[t].ops[0]) < WaitLevel(s.tasks[child].ops[0]))
  {
    assert ChildOk(s, s.tasks[t]);
    var child := s.tasks[s.tasks[t].child];
    assert TaskOk(child);
    if child.waiting && child.ops != [] {
      assert child.ops[0] in child.ops;
    }
  }

  lemma HolderIsHigher(s: State, t: TaskId, slots: nat) returns (h: TaskId)
    requires TasksOk(s) && slots > 0 && NextIs(s, t, true) && s.tasks[t].ops[0].Acquire? &&
             !Free(s, s.tasks[t].ops[0].r, slots)
    ensures h < |s.tasks| && s.tasks[h].ops != []
    ensures s.tasks[h].waiting ==> WaitLevel(s.tasks[t].ops[0]) < WaitLevel(s.tasks[h].ops[0])
  {
    var r := s.tasks[t].ops[0].r;
    assert |Holders(s, r)| > 0;
    h :| h in Holders(s, r);
    assert TaskOk(s.tasks[h]);
  }

  /** No deadlock: for any tasks, users and workspaces, while some task is unfinished, some task can step. */
  lemma NoDeadlock(actions: seq<Action>, slots: nat)
    requires slots > 0 && Possible(INITIAL, actions, slots) && !Finished(After(INITIAL, actions, slots))
    ensures exists a :: Succeeds(a) && Enabled(After(INITIAL, actions, slots), a, slots)
  {
    ReachableInv(actions, slots);
    var s := After(INITIAL, actions, slots);
    var t :| 0 <= t < |s.tasks| && s.tasks[t].ops != [];
    var a := FollowWaits(s, t, slots);
  }

  // --- Every run ends ---

  /** What is left to do in `ops` but for its calls. */
  function PlainCost(ops: seq<Op>): nat {
    if ops == [] then 0 else (if ops[0].Acquire? then 2 else 1) + PlainCost(ops[1..])
  }

  /** The steps before an operation can be done: asking for a resource, or starting an inner task and all it does. */
  function Weight(op: Op): nat {
    match op
    case Acquire(_) => 1
    case Call(inner, _) => 1 + PlainCost(InnerProgram(inner))
    case _ => 0
  }

  function Cost(ops: seq<Op>): nat {
    if ops == [] then 0 else 1 + Weight(ops[0]) + Cost(ops[1..])
  }

  function TaskCost(task: Task): int {
    Cost(task.ops) - if task.waiting && task.ops != [] then Weight(task.ops[0]) else 0
  }

  /** An upper bound for the steps that are left. */
  function Measure(tasks: seq<Task>): int {
    if tasks == [] then 0 else Measure(tasks[..|tasks| - 1]) + TaskCost(tasks[|tasks| - 1])
  }

  lemma {:induction false} MeasureSet(tasks: seq<Task>, t: TaskId, task: Task)
    requires t < |tasks|
    ensures Measure(tasks[t := task]) == Measure(tasks) - TaskCost(tasks[t]) + TaskCost(task)
    decreases |tasks|
  {
    var n := |tasks| - 1;
    if t < n {
      MeasureSet(tasks[..n], t, task);
      assert tasks[t := task][..n] == tasks[..n][t := task];
    } else {
      assert tasks[t := task][..n] == tasks[..n];
    }
  }

  lemma {:induction false} MeasureIsNat(tasks: seq<Task>)
    ensures Measure(tasks) >= 0
    decreases |tasks|
  {
    if tasks != [] {
      MeasureIsNat(tasks[..|tasks| - 1]);
    }
  }

  lemma {:induction false} NestedLength(held: seq<Resource>, ops: seq<Op>)
    requires WellNested(held, ops)
    ensures |held| <= |ops|
    decreases |ops|
  {
    if ops != [] {
      match ops[0]
      case Acquire(r) => NestedLength(held + [r], ops[1..]);
      case Release(_) => NestedLength(held[..|held| - 1], ops[1..]);
      case _ => NestedLength(held, ops[1..]);
    }
  }

  lemma {:induction false} CostAtLeast(ops: seq<Op>)
    ensures Cost(ops) >= |ops|
    decreases |ops|
  {
    if ops != [] {
      CostAtLeast(ops[1..]);
    }
  }

  lemma {:induction false} UnwindCost(held: seq<Resource>)
    ensures Cost(Unwind(held)) == |held|
    decreases |held|
  {
    if held != [] {
      UnwindCost(held[..|held| - 1]);
      assert Unwind(held)[1..] == Unwind(held[..|held| - 1]);
    }
  }

  lemma {:induction false} PlainIsCost(ops: seq<Op>)
    requires forall op :: op in ops ==> !op.Call?
    ensures Cost(ops) == PlainCost(ops)
    decreases |ops|
  {
    if ops != [] {
      assert ops[0] in ops;
      PlainIsCost(ops[1..]);
    }
  }

  /** Giving up costs no more than going on, and less than work or a call that fails. */
  lemma UnwoundCost(s: State, t: TaskId)
    requires TasksOk(s) && t < |s.tasks| && s.tasks[t].ops != []
    ensures Measure(Unwound(s, t).tasks) <= Measure(s.tasks)
    ensures s.tasks[t].ops[0].Work? || s.tasks[t].ops[0].Call? ==> Measure(Unwound(s, t).tasks) < Measure(s.tasks)
  {
    var task := s.tasks[t];
    assert TaskOk(task);
    UnwindCost(task.held);
    CostAtLeast(task.ops[1..]);
    NestedLength(task.held, task.ops);
    if task.ops[0].Work? || task.ops[0].Call? {
      NestedLength(task.held, task.ops[1..]);
    }
    MeasureSet(s.tasks, t, task.(ops := Unwind(task.held), waiting := false));
  }

  lemma BeginCost(s: State, t: TaskId, slots: nat)
    requires Inv(s, slots) && Enabled(s, Begin(t), slots)
    ensures Measure(Next(s, Begin(t), slots).tasks) < Measure(s.tasks)
  {
    var task := s.tasks[t];
    var inner := task.ops[0].inner;
    if Joined(s, inner).Some? {
      MeasureSet(s.tasks, t, task.(waiting := true, child := Joined(s, inner).value));
    } else {
      MeasureSet(s.tasks, t, task.(waiting := true, child := |s.tasks|));
      MeasureOfStarted(s.tasks[t := task.(waiting := true, child := |s.tasks|)], inner);
    }
  }

  lemma MeasureOfStarted(tasks: seq<Task>, inner: Inner)
    ensures Measure(tasks + [Task(Body(inner), InnerProgram(inner), [], false, 0)]) ==
              Measure(tasks) + PlainCost(InnerProgram(inner))
  {
    ProgramOpsOk(Body(inner));
    PlainIsCost(InnerProgram(inner));
    var started := Task(Body(inner), InnerProgram(inner), [], false, 0);
    assert (tasks + [started])[..|tasks|] == tasks;
  }

  /** Every step but the start of a request lowers the measure, save a cancellation, which never raises it. */
  lemma StepCost(s: State, a: Action, slots: nat)
    requires Inv(s, slots) && Enabled(s, a, slots) && !a.Start?
    ensures Measure(Next(s, a, slots).tasks) <= Measure(s.tasks)
    ensures !a.Cancel? ==> Measure(Next(s, a, slots).tasks) < Measure(s.tasks)
  {
    if a.Cancel? {
      CancelStaysOutside(s, a.t, slots);
      UnwoundCost(s, a.t);
    } else if a.Raise? {
      UnwoundCost(s, a.t);
    } else if a.Begin? {
      BeginCost(s, a.t, slots);
    } else {
      MeasureSet(s.tasks, a.t, Next(s, a, slots).tasks[a.t]);
    }
  }

  predicate NoStarts(actions: seq<Action>) {
    forall k :: 0 <= k < |actions| ==> !actions[k].Start?
  }

  /** The steps of a run that are no cancellations. */
  function Steps(actions: seq<Action>): nat {
    if actions == [] then 0 else (if actions[0].Cancel? then 0 else 1) + Steps(actions[1..])
  }

  lemma {:induction false} RunsAreBounded(s: State, actions: seq<Action>, slots: nat)
    requires Inv(s, slots) && Possible(s, actions, slots) && NoStarts(actions)
    ensures Steps(actions) + Measure(After(s, actions, slots).tasks) <= Measure(s.tasks)
    decreases |actions|
  {
    if actions != [] {
      StepCost(s, actions[0], slots);
      StepKeepsInv(s, actions[0], slots);
      RunsAreBounded(Next(s, actions[0], slots), actions[1..], slots);
    }
  }

  /**
    Every run ends: once no requests come in, only so many steps are left, however requests are cancelled
    and work fails, and where no step is left, every task is finished.
   */
  lemma EveryRunFinishes(before: seq<Action>, later: seq<Action>, slots: nat)
    requires slots > 0 && Possible(INITIAL, before, slots) && Possible(After(INITIAL, before, slots), later, slots) &&
             NoStarts(later)
    ensures Steps(later) <= Measure(After(INITIAL, before, slots).tasks)
    ensures var end := After(After(INITIAL, before, slots), later, slots);
            (forall a :: Succeeds(a) ==> !Enabled(end, a, slots)) ==> Finished(end)
  {
    ReachableInv(before, slots);
    var s := After(INITIAL, before, slots);
    RunsAreBounded(s, later, slots);
    var end := After(s, later, slots);
    MeasureIsNat(end.tasks);
    RunKeepsInv(s, later, slots);
    if t :| 0 <= t < |end.tasks| && end.tasks[t].ops != [] {
      var a := FollowWaits(end, t, slots);
    }
  }

  // --- Inner tasks outlive their requests ---

  /** The tasks whose own step it is. */
  predicate ActsFor(a: Action, t: TaskId) {
    match a
    case Start(_) => false
    case DoWork(u) => t == u
    case Raise(u) => t == u
    case DoRelease(u) => t == u
    case Request(u) => t == u
    case Grant(u) => t == u
    case Begin(u) => t == u
    case PassBy(u) => t == u
    case Resume(u) => t == u
    case Cancel(_) => false
  }

  /** An inner task changes by its own steps alone: no cancellation reaches it, whoever awaits it. */
  lemma OnlyOwnSteps(s: State, a: Action, slots: nat, t: TaskId)
    requires Inv(s, slots) && Enabled(s, a, slots) && t < |s.tasks| && s.tasks[t].job.Body? && !ActsFor(a, t)
    ensures t < |Next(s, a, slots).tasks| && Next(s, a, slots).tasks[t] == s.tasks[t]
  {
    if a.Cancel? { CancelStaysOutside(s, a.t, slots); }
  }

  /** What the shield is for: without it, a cancelled request takes what it awaits with it. */
  lemma UnshieldedIsCut(s: State, t: TaskId, slots: nat)
    requires Enabled(s, Cancel(t), slots) && NextIs(s, t, true) && s.tasks[t].ops[0].Call? &&
             !s.tasks[t].ops[0].shielded
    requires s.tasks[t].child < |s.tasks| && s.tasks[t].child != t
    ensures var child := s.tasks[t].child; Next(s, Cancel(t), slots).tasks[child].ops == Unwind(s.tasks[child].held)
  {
  }

  /** The steps by which `t` gets its next operation done; queueing, starting a call, and giving up do not. */
  predicate Completes(a: Action, t: TaskId) {
    a in {DoWork(t), DoRelease(t), Grant(t), PassBy(t), Resume(t)}
  }

  /** The operations that `t` got done in a run, in order. */
  ghost function Done(s: State, actions: seq<Action>, slots: nat, t: TaskId): seq<Op>
    requires Possible(s, actions, slots)
    decreases |actions|
  {
    if actions == [] then []
    else
      (if Completes(actions[0], t) then [s.tasks[t].ops[0]] else []) +
      Done(Next(s, actions[0], slots), actions[1..], slots, t)
  }

  /** One step of a run in which the work of an inner task does not fail. */
  lemma StepOfInnerTask(s: State, a: Action, slots: nat, t: TaskId)
    requires Inv(s, slots) && Enabled(s, a, slots) && t < |s.tasks| && s.tasks[t].job.Body? && a != Raise(t)
    ensures t < |Next(s, a, slots).tasks| && Next(s, a, slots).tasks[t].job == s.tasks[t].job
    ensures s.tasks[t].ops ==
            (if Completes(a, t) then [s.tasks[t].ops[0]] else []) + Next(s, a, slots).tasks[t].ops
  {
    if !ActsFor(a, t) {
      OnlyOwnSteps(s, a, slots, t);
    }
  }

  /** What an inner task had left is what it gets done, and what it has left then, unless its own work fails. */
  lemma {:induction false} NothingIsSkipped(s: State, actions: seq<Action>, slots: nat, t: TaskId)
    requires Inv(s, slots) && Possible(s, actions, slots) && t < |s.tasks| && s.tasks[t].job.Body?
    requires Raise(t) !in actions
    ensures var end := After(s, actions, slots);
            t < |end.tasks| && end.tasks[t].job == s.tasks[t].job &&
            s.tasks[t].ops == Done(s, actions, slots, t) + end.tasks[t].ops
    decreases |actions|
  {
    if actions != [] {
      StepOfInnerTask(s, actions[0], slots, t);
      StepKeepsInv(s, actions[0], slots);
      NothingIsSkipped(Next(s, actions[0], slots), actions[1..], slots, t);
    }
  }

  /**
    A transaction or install that a request `t` started runs to its end. Whatever comes after, with any
    request cancelled at any time and `t` above all: unless its own work fails, the operations it got done
    and those it has left are its program, and when no step is left (EveryRunFinishes: after so many
    steps), it got its whole program done, in order, and holds nothing.
   */
  lemma InnerTaskRunsToTheEnd(before: seq<Action>, t: TaskId, later: seq<Action>, slots: nat)
    requires slots > 0 && Possible(INITIAL, before, slots) && Enabled(After(INITIAL, before, slots), Begin(t), slots)
    requires Joined(After(INITIAL, before, slots), After(INITIAL, before, slots).tasks[t].ops[0].inner) == None
    requires Possible(Next(After(INITIAL, before, slots), Begin(t), slots), later, slots)
    requires Raise(|After(INITIAL, before, slots).tasks|) !in later
    ensures var s := After(INITIAL, before, slots);
            var s' := Next(s, Begin(t), slots);
            var end, c := After(s', later, slots), |s.tasks|;
            var program := Program(Body(s.tasks[t].ops[0].inner));
            c < |end.tasks| && end.tasks[c].job == Body(s.tasks[t].ops[0].inner) &&
            Done(s', later, slots, c) + end.tasks[c].ops == program &&
            ((forall a :: Succeeds(a) ==> !Enabled(end, a, slots)) ==>
               Done(s', later, slots, c) == program && end.tasks[c].held == [])
  {
    ReachableInv(before, slots);
    var s := After(INITIAL, before, slots);
    StepKeepsInv(s, Begin(t), slots);
    var s', c := Next(s, Begin(t), slots), |s.tasks|;
    NothingIsSkipped(s', later, slots, c);
    RunKeepsInv(s', later, slots);
    var end := After(s', later, slots);
    if end.tasks[c].ops != [] {
      var a := FollowWaits(end, c, slots);
    } else {
      assert TaskOk(end.tasks[c]);
    }
  }
}
