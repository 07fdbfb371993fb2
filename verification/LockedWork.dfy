/**
  What the locks are for: in every run of the tasks of LockOrder, whatever is cancelled or fails, work is only
  done under the locks that guard what it works on, so no two tasks work on the same thing at once.
 */
module LockedWork {
  import opened LockOrder

  /** The locks that a job has to hold while it does this work. */
  predicate Guarded(job: Job, duty: Duty, held: seq<Resource>) {
    (duty == RunBuild ==> BuildSlot in held) &&
    match job
    case Mutation(_, _) => false // all of its work is the transaction's
    case GeneratePreview(w, user, _) => BuildLock(w) in held && (duty == RunBuild ==> UserBuildLock(user) in held)
    case ReadPreview(w) => BuildLock(w) in held
    case Download(user, _) => UserBuildLock(user) in held
    case RefreshToken(user) => RefreshLock(user) in held
    case Cleanup(w) => FileLock(w) in held
    case Body(Transaction(w, _)) =>
      WorkspaceLock(w) in held && FileLock(w) in held && (duty.RepairFork? ==> ForkLock(duty.user) in held)
    case Body(Install(_)) => InstallLock in held
  }

  /** All work among `ops` is guarded, for a task that now holds `held`. */
  predicate WorksGuarded(job: Job, held: seq<Resource>, ops: seq<Op>)
    decreases |ops|
  {
    ops == [] ||
    match ops[0]
    case Work(duty) => Guarded(job, duty, held) && WorksGuarded(job, held, ops[1..])
    case Acquire(r) => WorksGuarded(job, held + [r], ops[1..])
    case Release(_) => held != [] && WorksGuarded(job, held[..|held| - 1], ops[1..])
    case Call(_, _) => WorksGuarded(job, held, ops[1..])
  }

  // --- Every program works under its locks ---

  lemma {:induction false} GuardConcat(job: Job, held: seq<Resource>, a: seq<Op>, b: seq<Op>)
    requires Effect(held, a).Some? && WorksGuarded(job, held, a) && WorksGuarded(job, Effect(held, a).value, b)
    ensures WorksGuarded(job, held, a + b)
    decreases |a|
  {
    if a == [] {
      assert a + b == b;
    } else {
      assert (a + b)[0] == a[0] && (a + b)[1..] == a[1..] + b;
      match a[0]
      case Work(_) => GuardConcat(job, held, a[1..], b);
      case Acquire(r) => GuardConcat(job, held + [r], a[1..], b);
      case Release(_) => GuardConcat(job, held[..|held| - 1], a[1..], b);
      case Call(_, _) => GuardConcat(job, held, a[1..], b);
    }
  }

  lemma GuardWithin(job: Job, held: seq<Resource>, r: Resource, body: seq<Op>)
    requires Effect(held + [r], body) == Some(held + [r]) && WorksGuarded(job, held + [r], body)
    ensures WorksGuarded(job, held, Within(r, body))
  {
    assert Within(r, body)[1..] == body + [Release(r)];
    assert [Release(r)][1..] == [];
    GuardConcat(job, held + [r], body, [Release(r)]);
  }

  lemma GuardOp(job: Job, held: seq<Resource>, op: Op)
    requires op.Call? || (op.Work? && Guarded(job, op.duty, held))
    ensures WorksGuarded(job, held, [op])
  {
    assert [op][1..] == [];
  }

  lemma {:induction false} RepairsGuarded(w: string, repairs: seq<string>, users: seq<string>)
    ensures WorksGuarded(Body(Transaction(w, repairs)), [WorkspaceLock(w), FileLock(w)], Repairs(users))
    decreases |users|
  {
    if users != [] {
      var job, held := Body(Transaction(w, repairs)), [WorkspaceLock(w), FileLock(w)];
      var work := [Work(RepairFork(users[0]))];
      OpEffect(held + [ForkLock(users[0])], work[0]);
      GuardOp(job, held + [ForkLock(users[0])], work[0]);
      GuardWithin(job, held, ForkLock(users[0]), work);
      WithinEffect(held, ForkLock(users[0]), work);
      RepairsGuarded(w, repairs, users[1..]);
      GuardConcat(job, held, Within(ForkLock(users[0]), work), Repairs(users[1..]));
    }
  }

  lemma TransactionGuarded(w: string, repairs: seq<string>)
    ensures WorksGuarded(Body(Transaction(w, repairs)), [], InnerProgram(Transaction(w, repairs)))
  {
    var job, ws, held := Body(Transaction(w, repairs)), [WorkspaceLock(w)], [WorkspaceLock(w), FileLock(w)];
    var work := [Work(Main)];
    GuardOp(job, held, Work(Main));
    OpEffect(held, Work(Main));
    RepairsGuarded(w, repairs, repairs);
    RepairsNested(held, repairs);
    GuardConcat(job, held, work, Repairs(repairs));
    EffectConcat(held, work, Repairs(repairs));
    GuardConcat(job, held, work + Repairs(repairs), work);
    EffectConcat(held, work + Repairs(repairs), work);
    assert ws + [FileLock(w)] == held && [] + [WorkspaceLock(w)] == ws;
    GuardWithin(job, ws, FileLock(w), work + Repairs(repairs) + work);
    WithinEffect(ws, FileLock(w), work + Repairs(repairs) + work);
    GuardWithin(job, [], WorkspaceLock(w), Within(FileLock(w), work + Repairs(repairs) + work));
  }

  lemma SimpleGuarded(job: Job, r: Resource)
    requires Guarded(job, Main, [r])
    ensures WorksGuarded(job, [], Within(r, [Work(Main)]))
  {
    assert [] + [r] == [r];
    GuardOp(job, [r], Work(Main));
    OpEffect([r], Work(Main));
    GuardWithin(job, [], r, [Work(Main)]);
  }

  lemma BuildGuarded(job: Job, held: seq<Resource>, user: string, toolchain: string)
    requires forall h :: h in held ==> Rank(h) < Rank(UserBuildLock(user))
    requires Guarded(job, RunBuild, held + [UserBuildLock(user)] + [BuildSlot])
    ensures WorksGuarded(job, held, Build(user, toolchain))
  {
    var inner, install, work := held + [UserBuildLock(user)], [Call(Install(toolchain), true)], [Work(RunBuild)];
    GuardOp(job, inner + [BuildSlot], work[0]);
    OpEffect(inner + [BuildSlot], work[0]);
    GuardWithin(job, inner, BuildSlot, work);
    WithinEffect(inner, BuildSlot, work);
    GuardOp(job, inner, install[0]);
    OpEffect(inner, install[0]);
    GuardConcat(job, inner, install, Within(BuildSlot, work));
    EffectConcat(inner, install, Within(BuildSlot, work));
    GuardWithin(job, held, UserBuildLock(user), install + Within(BuildSlot, work));
  }

  lemma PreviewGuarded(w: string, user: string, toolchain: string)
    ensures WorksGuarded(GeneratePreview(w, user, toolchain), [], Program(GeneratePreview(w, user, toolchain)))
  {
    var job, held := GeneratePreview(w, user, toolchain), [BuildLock(w)];
    var install, build, work := [Call(Install(toolchain), true)], Build(user, toolchain), [Work(Main)];
    BuildGuarded(job, held, user, toolchain);
    BuildNested(held, user, toolchain);
    GuardOp(job, held, Work(Main));
    OpEffect(held, Work(Main));
    GuardConcat(job, held, build, work);
    EffectConcat(held, build, work);
    assert [] + [BuildLock(w)] == held;
    GuardWithin(job, [], BuildLock(w), build + work);
    GuardOp(job, [], install[0]);
    OpEffect([], install[0]);
    GuardConcat(job, [], install, Within(BuildLock(w), build + work));
  }

  lemma ProgramsGuarded(job: Job)
    ensures WorksGuarded(job, [], Program(job))
  {
    match job
    case Mutation(w, repairs) => GuardOp(job, [], Call(Transaction(w, repairs), true));
    case GeneratePreview(w, user, toolchain) => PreviewGuarded(w, user, toolchain);
    case ReadPreview(w) => SimpleGuarded(job, BuildLock(w));
    case Download(user, toolchain) =>
      BuildGuarded(job, [], user, toolchain);
      GuardOp(job, [], Call(Install(toolchain), true));
      OpEffect([], Call(Install(toolchain), true));
      GuardConcat(job, [], [Call(Install(toolchain), true)], Build(user, toolchain));
    case RefreshToken(user) => SimpleGuarded(job, RefreshLock(user));
    case Cleanup(w) => SimpleGuarded(job, FileLock(w));
    case Body(Transaction(w, repairs)) => TransactionGuarded(w, repairs);
    case Body(Install(_)) => SimpleGuarded(job, InstallLock);
  }

  // --- and so does every task in every run ---

  ghost predicate AllGuarded(s: State) {
    forall t :: 0 <= t < |s.tasks| ==> WorksGuarded(s.tasks[t].job, s.tasks[t].held, s.tasks[t].ops)
  }

  lemma {:induction false} UnwindGuarded(job: Job, held: seq<Resource>)
    ensures WorksGuarded(job, held, Unwind(held))
    decreases |held|
  {
    if held != [] {
      assert Unwind(held)[1..] == Unwind(held[..|held| - 1]);
      UnwindGuarded(job, held[..|held| - 1]);
    }
  }

  lemma StepKeepsGuarded(s: State, a: Action, slots: nat)
    requires Inv(s, slots) && AllGuarded(s) && Enabled(s, a, slots)
    ensures AllGuarded(Next(s, a, slots))
  {
    match a
    case Start(job) => ProgramsGuarded(job);
    case Begin(t) => ProgramsGuarded(Body(s.tasks[t].ops[0].inner));
    case Raise(t) => UnwindGuarded(s.tasks[t].job, s.tasks[t].held);
    case Cancel(t) =>
      CancelStaysOutside(s, t, slots);
      UnwindGuarded(s.tasks[t].job, s.tasks[t].held);
    case _ =>
  }

  lemma {:induction false} RunKeepsGuarded(s: State, actions: seq<Action>, slots: nat)
    requires Inv(s, slots) && AllGuarded(s) && Possible(s, actions, slots)
    ensures AllGuarded(After(s, actions, slots))
    decreases |actions|
  {
    if actions != [] {
      StepKeepsGuarded(s, actions[0], slots);
      StepKeepsInv(s, actions[0], slots);
      RunKeepsGuarded(Next(s, actions[0], slots), actions[1..], slots);
    }
  }

  /**
    In every run, a task that does work holds its locks: a transaction the workspace lock and the file lock, and
    the fork lock while it repairs a fork; a build the user's build lock and a slot; a preview its build lock; a
    renewal, an install and a cleanup theirs.
   */
  lemma WorksUnderLocks(actions: seq<Action>, slots: nat, t: TaskId)
    requires Possible(INITIAL, actions, slots) && Enabled(After(INITIAL, actions, slots), DoWork(t), slots)
    ensures var task := After(INITIAL, actions, slots).tasks[t]; Guarded(task.job, task.ops[0].duty, task.held)
  {
    ReachableInv([], slots);
    RunKeepsGuarded(INITIAL, actions, slots);
  }

  /** The jobs that work on the files of a workspace. */
  predicate WritesWorkspace(job: Job, w: string) {
    job == Cleanup(w) || (job.Body? && job.inner.Transaction? && job.inner.workspace == w)
  }

  /** No two transactions of a workspace work at once, nor a transaction and a cleanup. */
  lemma OneWriterPerWorkspace(actions: seq<Action>, slots: nat, w: string, t: TaskId, u: TaskId)
    requires Possible(INITIAL, actions, slots)
    requires Enabled(After(INITIAL, actions, slots), DoWork(t), slots)
    requires Enabled(After(INITIAL, actions, slots), DoWork(u), slots)
    requires WritesWorkspace(After(INITIAL, actions, slots).tasks[t].job, w)
    requires WritesWorkspace(After(INITIAL, actions, slots).tasks[u].job, w)
    ensures t == u
  {
    WorksUnderLocks(actions, slots, t);
    WorksUnderLocks(actions, slots, u);
    NeverOverbooked(actions, slots, FileLock(w));
    OneOfAtMostOne(Holders(After(INITIAL, actions, slots), FileLock(w)), t, u);
  }

  lemma OneOfAtMostOne(s: set<TaskId>, t: TaskId, u: TaskId)
    requires |s| <= 1 && t in s && u in s
    ensures t == u
  {
    SubsetSize({t, u}, s);
  }

  predicate RunsBuild(s: State, t: TaskId, slots: nat) {
    Enabled(s, DoWork(t), slots) && s.tasks[t].ops[0] == Work(RunBuild)
  }

  predicate BuildsFor(job: Job, user: string) {
    (job.GeneratePreview? || job.Download?) && job.user == user
  }

  /** At most as many builds run at once as there are slots. */
  lemma BuildsAreLimited(actions: seq<Action>, slots: nat, building: set<TaskId>)
    requires Possible(INITIAL, actions, slots)
    requires forall t :: t in building ==> RunsBuild(After(INITIAL, actions, slots), t, slots)
    ensures |building| <= slots
  {
    var s := After(INITIAL, actions, slots);
    forall t | t in building ensures t in Holders(s, BuildSlot) {
      WorksUnderLocks(actions, slots, t);
    }
    NeverOverbooked(actions, slots, BuildSlot);
    SubsetSize(building, Holders(s, BuildSlot));
  }

  /** And at most one of each user. */
  lemma OneBuildPerUser(actions: seq<Action>, slots: nat, user: string, t: TaskId, u: TaskId)
    requires Possible(INITIAL, actions, slots)
    requires RunsBuild(After(INITIAL, actions, slots), t, slots) && RunsBuild(After(INITIAL, actions, slots), u, slots)
    requires BuildsFor(After(INITIAL, actions, slots).tasks[t].job, user)
    requires BuildsFor(After(INITIAL, actions, slots).tasks[u].job, user)
    ensures t == u
  {
    WorksUnderLocks(actions, slots, t);
    WorksUnderLocks(actions, slots, u);
    NeverOverbooked(actions, slots, UserBuildLock(user));
    OneOfAtMostOne(Holders(After(INITIAL, actions, slots), UserBuildLock(user)), t, u);
  }

  // --- What the programs do under them ---

  /** A program without its locks. */
  function Outline(ops: seq<Op>): seq<Op> {
    if ops == [] then []
    else (if ops[0].Work? || ops[0].Call? then [ops[0]] else []) + Outline(ops[1..])
  }

  lemma {:induction false} OutlineConcat(a: seq<Op>, b: seq<Op>)
    ensures Outline(a + b) == Outline(a) + Outline(b)
    decreases |a|
  {
    if a == [] {
      assert a + b == b;
    } else {
      assert (a + b)[0] == a[0] && (a + b)[1..] == a[1..] + b;
      OutlineConcat(a[1..], b);
    }
  }

  lemma OutlineWithin(r: Resource, body: seq<Op>)
    ensures Outline(Within(r, body)) == Outline(body)
  {
    assert Within(r, body) == [Acquire(r)] + (body + [Release(r)]);
    OutlineConcat([Acquire(r)], body + [Release(r)]);
    OutlineConcat(body, [Release(r)]);
    assert Outline([Acquire(r)]) == [] && Outline([Release(r)]) == [];
  }

  lemma OutlineOne(op: Op)
    requires op.Work? || op.Call?
    ensures Outline([op]) == [op]
  {
    assert [op][1..] == [];
  }

  function ForkRepairs(users: seq<string>): seq<Op> {
    seq(|users|, i requires 0 <= i < |users| => Work(RepairFork(users[i])))
  }

  lemma {:induction false} RepairsOutline(users: seq<string>)
    ensures Outline(Repairs(users)) == ForkRepairs(users)
    decreases |users|
  {
    if users != [] {
      var work := Work(RepairFork(users[0]));
      OutlineConcat(Within(ForkLock(users[0]), [work]), Repairs(users[1..]));
      OutlineWithin(ForkLock(users[0]), [work]);
      OutlineOne(work);
      RepairsOutline(users[1..]);
      assert ForkRepairs(users) == [work] + ForkRepairs(users[1..]);
    }
  }

  lemma BuildOutline(user: string, toolchain: string)
    ensures Outline(Build(user, toolchain)) == [Call(Install(toolchain), true), Work(RunBuild)]
  {
    var install := [Call(Install(toolchain), true)];
    OutlineWithin(UserBuildLock(user), install + Within(BuildSlot, [Work(RunBuild)]));
    OutlineConcat(install, Within(BuildSlot, [Work(RunBuild)]));
    OutlineWithin(BuildSlot, [Work(RunBuild)]);
    OutlineOne(install[0]);
    OutlineOne(Work(RunBuild));
  }

  /** All a program does and awaits, in order; with InnerTaskRunsToTheEnd, what a started transaction gets done. */
  lemma ProgramOutline(job: Job)
    ensures Outline(Program(job)) ==
            match job
            case Mutation(w, repairs) => [Call(Transaction(w, repairs), true)]
            case GeneratePreview(_, _, toolchain) =>
              [Call(Install(toolchain), true), Call(Install(toolchain), true), Work(RunBuild), Work(Main)]
            case Download(_, toolchain) =>
              [Call(Install(toolchain), true), Call(Install(toolchain), true), Work(RunBuild)]
            case Body(Transaction(_, repairs)) => [Work(Main)] + ForkRepairs(repairs) + [Work(Main)]
            case _ => [Work(Main)]
  {
    OutlineOne(Work(Main));
    match job
    case Mutation(w, repairs) => OutlineOne(Call(Transaction(w, repairs), true));
    case GeneratePreview(w, user, toolchain) =>
      var install, build := [Call(Install(toolchain), true)], Build(user, toolchain);
      OutlineOne(install[0]);
      BuildOutline(user, toolchain);
      OutlineConcat(install, Within(BuildLock(w), build + [Work(Main)]));
      OutlineWithin(BuildLock(w), build + [Work(Main)]);
      OutlineConcat(build, [Work(Main)]);
    case Download(user, toolchain) =>
      OutlineOne(Call(Install(toolchain), true));
      BuildOutline(user, toolchain);
      OutlineConcat([Call(Install(toolchain), true)], Build(user, toolchain));
    case ReadPreview(w) => OutlineWithin(BuildLock(w), [Work(Main)]);
    case RefreshToken(user) => OutlineWithin(RefreshLock(user), [Work(Main)]);
    case Cleanup(w) => OutlineWithin(FileLock(w), [Work(Main)]);
    case Body(Install(_)) => OutlineWithin(InstallLock, [Work(Main)]);
    case Body(Transaction(w, repairs)) =>
      var work := [Work(Main)] + Repairs(repairs) + [Work(Main)];
      OutlineWithin(WorkspaceLock(w), Within(FileLock(w), work));
      OutlineWithin(FileLock(w), work);
      OutlineConcat([Work(Main)] + Repairs(repairs), [Work(Main)]);
      OutlineConcat([Work(Main)], Repairs(repairs));
      RepairsOutline(repairs);
  }
}
