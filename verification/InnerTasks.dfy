/**
  Requests and the inner tasks they await, in every run of LockOrder: a transaction is awaited to its end by the
  request it was started for, an install by everyone who needs that toolchain.
 */
module InnerTasks {
  import opened LockOrder

  // --- Transactions ---

  /** A request that is about to save starts a transaction of its own, never someone else's. */
  lemma EveryMutationStartsItsOwn(s: State, t: TaskId, slots: nat)
    requires Enabled(s, Begin(t), slots) && s.tasks[t].ops[0].inner.Transaction?
    ensures var s', inner := Next(s, Begin(t), slots), s.tasks[t].ops[0].inner;
            |s'.tasks| == |s.tasks| + 1 && s'.tasks[t].child == |s.tasks| && s'.tasks[t].waiting &&
            s'.tasks[|s.tasks|] == Task(Body(inner), InnerProgram(inner), [], false, 0)
  {
  }

  /**
    In every run: a request gets past its transaction only by the step in which it resumes, and then the
    transaction it started has ended; otherwise it raises, is cancelled, or still waits.
   */
  lemma TransactionsAreAwaited(actions: seq<Action>, slots: nat, a: Action, t: TaskId)
    requires Possible(INITIAL, actions, slots) && Enabled(After(INITIAL, actions, slots), a, slots)
    requires t < |After(INITIAL, actions, slots).tasks| && After(INITIAL, actions, slots).tasks[t].ops != []
    requires var op := After(INITIAL, actions, slots).tasks[t].ops[0]; op.Call? && op.inner.Transaction?
    ensures var s := After(INITIAL, actions, slots); var s' := Next(s, a, slots);
            t < |s'.tasks| &&
            (s'.tasks[t].ops == s.tasks[t].ops || a == Raise(t) || a == Cancel(t) ||
             (a == Resume(t) && s'.tasks[t].ops == s.tasks[t].ops[1..] && s.tasks[t].child < |s.tasks| &&
              s.tasks[s.tasks[t].child].job == Body(s.tasks[t].ops[0].inner) &&
              s.tasks[s.tasks[t].child].ops == []))
  {
    ReachableInv(actions, slots);
    var s := After(INITIAL, actions, slots);
    assert ChildOk(s, s.tasks[t]);
    if a.Cancel? { CancelStaysOutside(s, a.t, slots); }
  }

  /** Any request can be cancelled as long as it lasts, and then just gives back what it holds. */
  lemma CancelledGivesUp(actions: seq<Action>, slots: nat, t: TaskId)
    requires Possible(INITIAL, actions, slots) && t < |After(INITIAL, actions, slots).tasks|
    requires var task := After(INITIAL, actions, slots).tasks[t];
             task.ops != [] && !task.job.Cleanup? && !task.job.Body?
    ensures var s := After(INITIAL, actions, slots);
            Enabled(s, Cancel(t), slots) &&
            var s' := Next(s, Cancel(t), slots);
            |s'.tasks| == |s.tasks| && s'.tasks[t].held == s.tasks[t].held && !s'.tasks[t].waiting &&
            |s'.tasks[t].ops| == |s.tasks[t].held| && (forall op :: op in s'.tasks[t].ops ==> op.Release?) &&
            forall u :: 0 <= u < |s.tasks| && u != t ==> s'.tasks[u] == s.tasks[u]
  {
    ReachableInv(actions, slots);
    var s := After(INITIAL, actions, slots);
    CancelStaysOutside(s, t, slots);
    UnwindNested(s.tasks[t].held);
  }

  /** Any work can fail, that of a request or of an inner task, and then just what is held is given back. */
  lemma FailedGivesUp(actions: seq<Action>, slots: nat, t: TaskId)
    requires Possible(INITIAL, actions, slots) && Enabled(After(INITIAL, actions, slots), DoWork(t), slots)
    ensures var s := After(INITIAL, actions, slots);
            Enabled(s, Raise(t), slots) &&
            var s' := Next(s, Raise(t), slots);
            s' == s.(tasks := s.tasks[t := s'.tasks[t]]) && s'.tasks[t].held == s.tasks[t].held &&
            |s'.tasks[t].ops| == |s.tasks[t].held| && forall op :: op in s'.tasks[t].ops ==> op.Release?
  {
    UnwindNested(After(INITIAL, actions, slots).tasks[t].held);
  }

  // --- Installs ---

  predicate Installs(s: State, t: TaskId, toolchain: string) {
    t < |s.tasks| && s.tasks[t].job == Body(Install(toolchain)) && s.tasks[t].ops != []
  }

  ghost predicate InstallsDiffer(s: State) {
    forall t, u, toolchain :: Installs(s, t, toolchain) && Installs(s, u, toolchain) ==> t == u
  }

  lemma {:induction false} NoneUnfinished(tasks: seq<Task>, job: Job, n: nat)
    requires n <= |tasks| && Unfinished(tasks, job, n) == None
    ensures forall t :: 0 <= t < n ==> tasks[t].job != job || tasks[t].ops == []
    decreases n
  {
    if n > 0 {
      NoneUnfinished(tasks, job, n - 1);
    }
  }

  /** A step never revives a task that has ended, and starts at most one. */
  lemma StepRevivesNone(s: State, a: Action, slots: nat, t: TaskId, toolchain: string)
    requires Inv(s, slots) && Enabled(s, a, slots) && Installs(Next(s, a, slots), t, toolchain)
    ensures Installs(s, t, toolchain) ||
            (t == |s.tasks| && forall u :: !Installs(s, u, toolchain))
  {
    if t < |s.tasks| {
      if a.Cancel? { CancelStaysOutside(s, a.t, slots); }
    } else {
      NoneUnfinished(s.tasks, Body(Install(toolchain)), |s.tasks|);
    }
  }

  lemma StepKeepsInstallsDiffer(s: State, a: Action, slots: nat)
    requires Inv(s, slots) && InstallsDiffer(s) && Enabled(s, a, slots)
    ensures InstallsDiffer(Next(s, a, slots))
  {
    var s' := Next(s, a, slots);
    forall t, u, toolchain | Installs(s', t, toolchain) && Installs(s', u, toolchain) ensures t == u {
      StepRevivesNone(s, a, slots, t, toolchain);
      StepRevivesNone(s, a, slots, u, toolchain);
    }
  }

  lemma {:induction false} RunKeepsInstallsDiffer(s: State, actions: seq<Action>, slots: nat)
    requires Inv(s, slots) && InstallsDiffer(s) && Possible(s, actions, slots)
    ensures InstallsDiffer(After(s, actions, slots))
    decreases |actions|
  {
    if actions != [] {
      StepKeepsInstallsDiffer(s, actions[0], slots);
      StepKeepsInv(s, actions[0], slots);
      RunKeepsInstallsDiffer(Next(s, actions[0], slots), actions[1..], slots);
    }
  }

  /** In every run, a toolchain is installed by one task at a time: whoever else needs it joins that one. */
  lemma OneInstallPerToolchain(actions: seq<Action>, slots: nat, t: TaskId, u: TaskId, toolchain: string)
    requires Possible(INITIAL, actions, slots)
    requires Installs(After(INITIAL, actions, slots), t, toolchain)
    requires Installs(After(INITIAL, actions, slots), u, toolchain)
    ensures t == u
  {
    ReachableInv([], slots);
    RunKeepsInstallsDiffer(INITIAL, actions, slots);
  }
}
