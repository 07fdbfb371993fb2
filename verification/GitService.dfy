/**
  `GitService`: sync, push and branch restoring on a workspace's clone, while other writers
  change the fork branch between any two network operations and any of these may fail.

  Every method records the steps it takes in a ghost trace, so whatever is proved about all runs
  of ForkProtocol holds for every program made of these methods.
 */
module GitService {
  import opened Commits
  import opened Replay
  import opened Unpushed
  import opened ForkProtocol

  datatype SyncStatus = UpToDate | Updated | Merged | Conflict | Dirty | RemoteMissing | RemoteRestored

  datatype PushResult =
    | Pushed
    | Rewritten      // 409: HEAD holds commits dropped on GitHub
    | PushFailed     // RemoteAccessError

  datatype SyncResult =
    | Synced(status: SyncStatus, ahead: nat, behind: nat, pulled: nat, conflictingFiles: set<Path>)
    | FetchFailed
    | Unreadable     // the status or the commits could not be read
    | RestoreFailed  // the branch is missing on the fork and could not be pushed back
    | ReplayFailed(restored: bool)

  datatype EnsureResult = Delivered | NothingToDeliver | NotDelivered

  datatype TakeResult = Took(tip: Id) | Conflicts(files: set<Path>) | Failed(restored: bool)

  /** The local side of a workspace. */
  datatype Local = Local(odb: Odb, head: Id, index: Tree, worktree: Tree, tracking: Option<Tracking>)

  predicate IsDirty(l: Local)
    requires l.head < |l.odb|
  {
    l.index != l.odb[l.head].tree || l.worktree != l.index
  }

  /** The commits `c` reaches and `other` does not. */
  function Missing(odb: Odb, c: Id, other: Id): set<Id> {
    set a: Id | 0 <= a < |odb| && Reaches(odb, c, a) && !Reaches(odb, other, a)
  }

  /** HEAD is on top of the fork's last known tip and holds nothing dropped there. */
  ghost predicate Settled(odb: Odb, head: Id, tracking: Option<Tracking>) {
    tracking.Some? && Reaches(odb, head, tracking.value.target) && !HoldsDropped(odb, head, tracking.value)
  }

  lemma UnpushedIds(odb: Odb, head: Id, ref: Tracking)
    ensures CommitIds(odb, UnpushedCommits(odb, head, ref).0)
  {
    WalkIds(odb, head, {ref.target} + Seen(odb, ref.log), |odb|);
  }

  /** What a sync has to do once the fork was fetched. */
  datatype Decision =
    | Skip(status: SyncStatus)
    | RestoreBranch
    | UpToDateWith(ahead: nat)
    | ConflictOn(files: set<Path>)
    | NothingToReplayOnto     // a local commit has no parent
    | MoveTo(picks: seq<Pick>)

  function Decide(l: Local, restoreBranch: bool): Decision
    requires WellFormed(l.odb) && l.head < |l.odb| && (l.tracking.Some? ==> l.tracking.value.target < |l.odb|)
  {
    if l.tracking.None? then
      if !restoreBranch then Skip(RemoteMissing) else if IsDirty(l) then Skip(Dirty) else RestoreBranch
    else if IsDirty(l) then Skip(Dirty)
    else
      var target := l.tracking.value.target;
      var (localCommits, rewritten) := UnpushedCommits(l.odb, l.head, l.tracking.value);
      if Missing(l.odb, target, l.head) == {} && !rewritten then UpToDateWith(|Missing(l.odb, l.head, target)|)
      else
        UnpushedIds(l.odb, l.head, l.tracking.value);
        var picked := Picks(l.odb, localCommits, l.odb[target].tree);
        match picked.ending
        case Rootless => NothingToReplayOnto
        case Conflicting(files) => ConflictOn(files)
        case Completed => MoveTo(picked.picks)
  }

  lemma NothingMissing(odb: Odb, c: Id, other: Id)
    requires c < |odb|
    ensures Missing(odb, c, other) == {} <==> Reaches(odb, other, c)
  {
    if Missing(odb, c, other) == {} {
      assert c !in Missing(odb, c, other);
    }
    if Reaches(odb, other, c) {
      forall a: Id | Reaches(odb, c, a) ensures Reaches(odb, other, a) {
        ReachesTransitive(odb, other, c, a);
      }
    }
  }

  /** A clean workspace counts as up to date exactly when HEAD is on top of the fork and holds nothing dropped there. */
  lemma UpToDateIffSettled(l: Local, restoreBranch: bool)
    requires WellFormed(l.odb) && l.head < |l.odb| && l.tracking.Some? && l.tracking.value.target < |l.odb| &&
             !IsDirty(l)
    ensures Decide(l, restoreBranch).UpToDateWith? <==> Settled(l.odb, l.head, l.tracking)
  {
    NothingMissing(l.odb, l.tracking.value.target, l.head);
    RewrittenIffHoldsDropped(l.odb, l.head, l.tracking.value);
  }

  lemma LogReachStable(odb: Odb, odb': Odb, ref: Tracking, a: Id)
    requires odb <= odb' && ValidTracking(odb, ref)
    ensures LogReaches(odb, ref.log, a) <==> LogReaches(odb', ref.log, a)
  {
    TrackingStaysValid(odb, odb', ref);
    forall s | s in Seen(odb, ref.log) ensures Reaches(odb, s, a) == Reaches(odb', s, a) {
      ReachesStable(odb, odb', s, a);
    }
  }

  /** A replayed HEAD is settled: it is on the fetched tip, and its new commits are not in the reflog. */
  lemma ReplayedIsSettled(odb: Odb, ref: Tracking, picks: seq<Pick>, committer: string)
    requires WellFormed(odb) && ValidTracking(odb, ref) && SourcesKnown(odb, picks)
    ensures Settled(Chain(odb, ref.target, picks, committer), ChainTip(odb, ref.target, picks), Some(ref))
  {
    var odb', tip := Chain(odb, ref.target, picks, committer), ChainTip(odb, ref.target, picks);
    ChainShape(odb, ref.target, picks, committer);
    TipReach(odb, ref.target, picks, committer, ref.target);
    forall a: Id | Reaches(odb', tip, a) && LogReaches(odb', ref.log, a) ensures Reaches(odb', ref.target, a) {
      TipReach(odb, ref.target, picks, committer, a);
      ReachesStable(odb, odb', ref.target, a);
      LogReachStable(odb, odb', ref, a);
      var s :| s in Seen(odb, ref.log) && Reaches(odb, s, a);
      ReachesIsOlder(odb, s, a);
    }
  }

  /** Holding dropped commits, and being settled, do not depend on commits added elsewhere. */
  lemma HoldsDroppedStable(odb: Odb, odb': Odb, head: Id, ref: Tracking)
    requires odb <= odb' && head < |odb| && ValidTracking(odb, ref)
    ensures HoldsDropped(odb, head, ref) <==> HoldsDropped(odb', head, ref)
    ensures Settled(odb, head, Some(ref)) <==> Settled(odb', head, Some(ref))
  {
    ReachesStableAll(odb, odb');
    forall a: Id ensures LogReaches(odb, ref.log, a) <==> LogReaches(odb', ref.log, a) {
      LogReachStable(odb, odb', ref, a);
    }
  }

  /** HEAD itself is settled once it is the last known tip: nothing of it can have been dropped. */
  lemma HeadIsSettled(odb: Odb, head: Id, ref: Tracking)
    requires head < |odb| && ref.target < |odb|
    ensures Settled(odb, head, Some(Follow(Some(ref), head)))
  {
  }

  /** A fetch that does not prune only adds to the reflog. */
  lemma LogKeepsReaching(odb: Odb, odb': Odb, before: Tracking, after: Option<Tracking>, fork: Option<Id>, a: Id)
    requires odb <= odb' && LogReaches(odb, before.log, a) && after == Fetched(Some(before), fork, false)
    ensures after.Some? && LogReaches(odb', after.value.log, a)
  {
    if fork.Some? { FollowKeepsLog(before, fork.value); }
    SeenGrows(odb, odb', before.log, after.value.log, a);
  }

  /** A settled HEAD is still settled after a fetch that finds the fork unmoved, or at HEAD. */
  lemma SettledAfterFetch(before: Local, after: Local, fork: Id)
    requires WellFormed(before.odb) && before.head < |before.odb| && before.tracking.Some?
    requires ValidTracking(before.odb, before.tracking.value) && Settled(before.odb, before.head, before.tracking)
    requires FetchedInto(before, after, Some(fork)) && fork in {before.tracking.value.target, before.head}
    ensures Settled(after.odb, after.head, after.tracking)
  {
    if fork == before.tracking.value.target {
      HoldsDroppedStable(before.odb, after.odb, after.head, before.tracking.value);
    } else {
      HeadIsSettled(after.odb, after.head, before.tracking.value);
    }
  }

  /** After a pruning fetch: the checkout as before, the tracking ref where the fork was at that moment. */
  ghost predicate FetchedInto(before: Local, after: Local, fork: Option<Id>) {
    before.odb <= after.odb && WellFormed(after.odb) && after.head < |after.odb| &&
    after.head == before.head && after.index == before.index && after.worktree == before.worktree &&
    (after.tracking.Some? ==> ValidTracking(after.odb, after.tracking.value)) &&
    after.tracking == Fetched(before.tracking, fork, true)
  }

  /** The outcome reported for a decision. */
  ghost predicate Reports(r: SyncResult, d: Decision)
    requires r.Synced?
  {
    match d
    case Skip(status) => r.status == status
    case RestoreBranch => r.status == RemoteRestored
    case UpToDateWith(ahead) => r.status == UpToDate && r.ahead == ahead
    case ConflictOn(files) => r.status == Conflict && r.conflictingFiles == files
    case NothingToReplayOnto => false
    case MoveTo(picks) => r.status == (if picks == [] then Updated else Merged) && r.pulled == r.behind
  }

  /** The steps a sync may take after its fetch; only restoring a missing branch pushes without a lease. */
  function SyncSteps(r: SyncResult): set<Label> {
    match r
    case FetchFailed => {}
    case Unreadable => {}
    case RestoreFailed => {OtherWriters, RestorePush, Fetch(false)}
    case ReplayFailed(_) => {LocalMove}
    case Synced(status, ahead, _, _, _) =>
      match status
      case UpToDate => if ahead == 0 then {} else {OtherWriters, LeasedPush}
      case Updated => {LocalMove}
      case Merged => {LocalMove, OtherWriters, LeasedPush}
      case Conflict => {LocalMove}
      case Dirty => {}
      case RemoteMissing => {}
      case RemoteRestored => {OtherWriters, RestorePush, Fetch(false)}
  }

  /** A sync that ends with a best-effort push: of commits that were ahead, or of the replayed ones. */
  predicate SendsCommits(r: SyncResult) {
    r.Synced? && (r.status == Merged || (r.status == UpToDate && r.ahead > 0))
  }

  /**
    A sync of a linear history on top of a fork that went on: it conflicts exactly when some path
    is contested, and otherwise HEAD's files are the local ones at every path a local commit
    touched and the fork's everywhere else.
   */
  lemma LinearSync(l: Local, restoreBranch: bool)
    requires WellFormed(l.odb) && l.head < |l.odb| && l.tracking.Some? && ValidTracking(l.odb, l.tracking.value) &&
             !IsDirty(l)
    requires LinearHistory(l.odb, l.head) && !Settled(l.odb, l.head, l.tracking)
    ensures var run, target := UnpushedCommits(l.odb, l.head, l.tracking.value).0, l.odb[l.tracking.value.target].tree;
            CommitIds(l.odb, run) &&
            (run == [] ==> Decide(l, restoreBranch) == MoveTo([])) &&
            (run != [] && l.odb[run[0]].parents != [] ==>
               var base := l.odb[run[0]].parents[0];
               LinearRun(l.odb, base, run) &&
               (Decide(l, restoreBranch).ConflictOn? <==> exists p :: Contested(l.odb, base, run, target, p)) &&
               (Decide(l, restoreBranch).ConflictOn? || Decide(l, restoreBranch).MoveTo?) &&
               (Decide(l, restoreBranch).MoveTo? ==>
                  forall p :: Lookup(TipTree(target, Decide(l, restoreBranch).picks), p) ==
                              if Touched(l.odb, base, run, p) then Lookup(l.odb[l.head].tree, p)
                                  else Lookup(target, p)))
  {
    var run := UnpushedCommits(l.odb, l.head, l.tracking.value).0;
    UnpushedIds(l.odb, l.head, l.tracking.value);
    UpToDateIffSettled(l, restoreBranch);
    UnpushedIsSuffix(l.odb, l.head, l.tracking.value);
    if run != [] && l.odb[run[0]].parents != [] {
      NeverOnOrigin(l.odb, l.head, l.tracking.value, run[0]);
      var base := l.odb[run[0]].parents[0];
      ReplayOfLinearRun(l.odb, base, run, l.odb[l.tracking.value.target].tree);
    }
  }

  /** What a successful push with set_upstream records: the push, then the fetch. */
  const RESTORE_STEPS := [OtherWriters, RestorePush, OtherWriters, Fetch(false)]

  class Clone {
    var odb: Odb
    var head: Id
    var index: Tree
    var worktree: Tree
    var tracking: Option<Tracking>
    // The branch on GitHub
    var fork: Option<Id>

    ghost var states: seq<State>
    ghost var labels: seq<Label>

    ghost function Now(): State
      reads this
    {
      State(odb, fork, head, tracking)
    }

    function View(): Local
      reads this
    {
      Local(odb, head, index, worktree, tracking)
    }

    ghost predicate Valid()
      reads this
    {
      IsRun(states, labels) && states[|labels|] == Now()
    }

    /** The trace goes on from where it was. */
    twostate predicate Continues()
      reads this
    {
      old(states) <= states && old(labels) <= labels && old(odb) <= odb
    }

    /** From entry `n` of the trace on, only these steps were taken. */
    ghost predicate OnlySteps(n: nat, allowed: set<Label>)
      reads this
    {
      forall i :: n <= i < |labels| ==> labels[i] in allowed
    }

    /** From entry `n` of the trace on, GitHub was contacted: what others do meanwhile is recorded then. */
    ghost predicate ContactedSince(n: nat)
      reads this
    {
      exists i :: n <= i < |labels| && labels[i] == ForkProtocol.OtherWriters
    }

    /**
      Step `n` of the trace is a pruning fetch that found the fork at `states[n].fork` and left the local side `at`.
     */
    ghost predicate FetchedAt(n: nat, at: Local)
      reads this
    {
      n < |labels| && |states| == |labels| + 1 && labels[n] == ForkProtocol.Fetch(true) &&
      at.tracking == Fetched(states[n].tracking, states[n].fork, true) &&
      states[n + 1] == State(at.odb, states[n].fork, at.head, at.tracking)
    }

    /** Nothing of the working copy changed: HEAD, index and files. */
    twostate predicate SameCheckout()
      reads this
    {
      head == old(head) && index == old(index) && worktree == old(worktree)
    }

    constructor (odb: Odb, head: Id, fork: Option<Id>)
      requires WellFormed(odb) && head < |odb| && (fork.Some? ==> fork.value < |odb|)
      ensures Valid() && this.odb == odb && this.head == head && this.fork == fork && tracking == None
      ensures !IsDirty(View())
    {
      this.odb, this.head, this.fork := odb, head, fork;
      this.index, this.worktree, this.tracking := odb[head].tree, odb[head].tree, None;
      this.states, this.labels := [State(odb, fork, head, None)], [];
    }

    /**
      Whatever these methods did so far: no leased push brought back a commit that was seen on the fork and dropped
      there.
     */
    lemma NeverResurrects(i: nat, k: nat, a: Id)
      requires Valid() && i <= k < |labels| && labels[k] == LeasedPush
      requires forall j :: i <= j <= k ==> states[j].tracking.Some?
      requires Reaches(states[i].odb, states[i].tracking.value.target, a) && !OnFork(states[k], a)
      ensures !OnFork(states[k + 1], a)
    {
      NoResurrection(states, labels, i, k, a);
    }

    /** Append the step just taken to the trace. */
    ghost method Record(what: Label)
      requires IsRun(states, labels) && Step(states[|labels|], what, Now())
      modifies this`states, this`labels
      ensures Valid() && states == old(states) + [Now()] && labels == old(labels) + [what]
    {
      states := states + [Now()];
      labels := labels + [what];
    }

    /** Whatever other people and GitHub do to the fork branch meanwhile. */
    method OtherWriters()
      requires Valid()
      modifies this
      ensures Valid() && Continues() && SameCheckout() && tracking == old(tracking)
      ensures labels == old(labels) + [ForkProtocol.OtherWriters]
    {
      var grown: Odb :| odb <= grown && WellFormed(grown);
      var tip: Option<Id> :| tip.Some? ==> tip.value < |grown|;
      if tracking.Some? { TrackingStaysValid(odb, grown, tracking.value); }
      odb, fork := grown, tip;
      Record(ForkProtocol.OtherWriters);
    }

    method Fetch(prune: bool) returns (ok: bool)
      requires Valid()
      modifies this
      ensures Valid() && Continues() && SameCheckout()
      ensures if ok then tracking == Fetched(old(tracking), fork, prune) else tracking == old(tracking)
      ensures labels == old(labels) + [ForkProtocol.OtherWriters] + if ok then [ForkProtocol.Fetch(prune)] else []
      ensures ok ==> states == old(states) + [State(odb, fork, head, old(tracking)), Now()]
    {
      OtherWriters();
      ok := *;
      if ok {
        if fork.Some? { FollowIsValid(odb, tracking, fork.value); }
        tracking := Fetched(tracking, fork, prune);
        Record(ForkProtocol.Fetch(prune));
      }
    }

    /**
      `LeasedPushCredentials.push_negotiation`: raises unless every branch is where it was last seen or already there.
     */
    static method PushNegotiation(updates: seq<Update>, expected: Option<Id>) returns (ok: bool)
      ensures ok <==> forall u :: u in updates ==> u.src == expected || u.src == u.dst
    {
      for i := 0 to |updates|
        invariant LeaseHolds(updates[..i], expected)
      {
        if updates[i].src != expected && updates[i].src != updates[i].dst {
          assert updates[i] in updates;
          return false;
        }
      }
      assert updates[..|updates|] == updates;
      return true;
    }

    /** `GitService.push` without set_upstream: never brings back commits that were dropped on the fork. */
    method Push() returns (r: PushResult)
      requires Valid()
      modifies this
      ensures Valid() && Continues() && SameCheckout()
      ensures r == Rewritten <==> old(tracking.Some? && HoldsDropped(odb, head, tracking.value))
      ensures if r == Pushed then tracking == Some(Follow(old(tracking), head)) && fork == Some(head)
              else tracking == old(tracking)
      ensures r == Rewritten ==> labels == old(labels)
      ensures r == Pushed ==> labels == old(labels) + [ForkProtocol.OtherWriters, LeasedPush]
      ensures r == PushFailed ==> labels == old(labels) + [ForkProtocol.OtherWriters] ||
                                  labels == old(labels) + [ForkProtocol.OtherWriters, LeasedPush]
    {
      if tracking.Some? {
        RewrittenIffHoldsDropped(odb, head, tracking.value);
        if UnpushedCommits(odb, head, tracking.value).1 {
          return Rewritten;
        }
      }
      var expected := Target(tracking);
      var start := odb;
      OtherWriters();
      var connected, replied := *, *;
      var negotiated := PushNegotiation([Update(fork, Some(head))], expected);
      if !connected || !negotiated || !FastForward(odb, fork, head) {
        return PushFailed;
      }
      if tracking.Some? {
        HoldsDroppedStable(start, odb, head, tracking.value);
        RewrittenIffHoldsDropped(odb, head, tracking.value);
      }
      FollowIsValid(odb, tracking, head);
      fork := Some(head);
      if replied { tracking := Some(Follow(tracking, head)); }
      Record(LeasedPush);
      return if replied then Pushed else PushFailed;
    }

    /** `GitService.push` with set_upstream: puts the branch (back) on the fork, then fetches. */
    method PushSetUpstream() returns (ok: bool)
      requires Valid()
      modifies this
      ensures Valid() && Continues() && SameCheckout()
      ensures ok ==> tracking.Some? && LogReaches(odb, tracking.value.log, head)
      ensures old(labels) + [ForkProtocol.OtherWriters] <= labels <= old(labels) + RESTORE_STEPS
      ensures ok ==> labels == old(labels) + RESTORE_STEPS
    {
      var replied := PushBranch();
      if !replied {
        return false;
      }
      ghost var pushed := Now();
      ok := Fetch(false);
      if ok {
        LogKeepsReaching(pushed.odb, odb, pushed.tracking.value, tracking, fork, head);
      }
    }

    /** The push itself, without a lease; true if the reply arrived. */
    method PushBranch() returns (replied: bool)
      requires Valid()
      modifies this
      ensures Valid() && Continues() && SameCheckout()
      ensures replied ==>
                tracking == Some(Follow(old(tracking), head)) && fork == Some(head) &&
                LogReaches(odb, tracking.value.log, head)
      ensures labels == old(labels) + [ForkProtocol.OtherWriters] ||
              labels == old(labels) + [ForkProtocol.OtherWriters, RestorePush]
      ensures replied ==> labels == old(labels) + [ForkProtocol.OtherWriters, RestorePush]
    {
      OtherWriters();
      var connected := *;
      replied := *;
      if !connected || !FastForward(odb, fork, head) {
        return false;
      }
      FollowIsValid(odb, tracking, head);
      fork := Some(head);
      if replied { tracking := Some(Follow(tracking, head)); }
      Record(RestorePush);
      assert replied ==> head in Seen(odb, tracking.value.log) && Reaches(odb, head, head);
    }

    /** The loop of `_replay`: only creates commits in the object database. `raised` is any failure. */
    method CherryPick(commits: seq<Id>, onto: Id, committer: string) returns (tip: Id, ending: Ending, raised: bool)
      requires WellFormed(odb) && CommitIds(odb, commits) && onto < |odb|
      modifies this`odb
      ensures WellFormed(odb) && old(odb) <= odb
      ensures var picked := Picks(old(odb), commits, old(odb)[onto].tree);
              !raised ==> SourcesKnown(old(odb), picked.picks) && ending == picked.ending && !ending.Rootless? &&
                          odb == Chain(old(odb), onto, picked.picks, committer) &&
                          tip == ChainTip(old(odb), onto, picked.picks)
    {
      var start := odb;
      ghost var done: seq<Pick> := [];
      tip, ending, raised := onto, Completed, false;
      assert commits[0..] == commits && Chain(start, onto, done, committer) == start;
      var i := 0;
      while i < |commits| && ending == Completed
        invariant i <= |commits| && SourcesKnown(start, done)
        invariant odb == Chain(start, onto, done, committer) && tip == ChainTip(start, onto, done)
        invariant WellFormed(odb) && start <= odb && tip < |odb| && !raised
        invariant ending == Completed ==> InProgress(start, commits, start[onto].tree, i, odb[tip].tree, done)
        invariant ending != Completed ==>
                    Picks(start, commits, start[onto].tree) == Picked(done, ending) && ending.Conflicting?
      {
        var c := start[commits[i]];
        var fault := *;
        if fault || |c.parents| == 0 {
          raised := true;
          return;
        }
        ProgressStep(start, commits, start[onto].tree, i, odb[tip].tree, done);
        if |c.parents| == 1 {
          var base := start[c.parents[0]].tree;
          var files := ConflictPaths(base, odb[tip].tree, c.tree);
          var merged := MergeTrees(base, odb[tip].tree, c.tree);
          if files != {} {
            ending := Conflicting(files);
          } else if merged != odb[tip].tree {
            tip := CreatePick(commits[i], c, merged, tip, committer, start, onto, done);
            done := done + [Pick(commits[i], merged)];
          }
        }
        i := i + 1;
      }
      if ending == Completed {
        ProgressEnd(start, commits, start[onto].tree, odb[tip].tree, done);
      }
    }

    /** The `create_commit` of the loop, as the next commit of the chain. */
    method CreatePick(source: Id, c: Commit, merged: Tree, tip: Id, committer: string, ghost start: Odb,
        ghost onto: Id, ghost done: seq<Pick>)
      returns (next: Id)
      requires WellFormed(start) && onto < |start| && source < |start| && c == start[source]
      requires SourcesKnown(start, done) && odb == Chain(start, onto, done, committer) &&
               tip == ChainTip(start, onto, done)
      modifies this`odb
      ensures var picks := done + [Pick(source, merged)];
              SourcesKnown(start, picks) && odb == Chain(start, onto, picks, committer) &&
              next == ChainTip(start, onto, picks)
      ensures WellFormed(odb) && start <= odb && next < |odb| && odb[next].tree == merged
    {
      ChainSnoc(start, onto, done, Pick(source, merged), committer);
      ChainShape(start, onto, done, committer);
      odb := odb + [Commit([tip], merged, c.author, committer, c.message)];
      next := |odb| - 1;
      ChainShape(start, onto, done + [Pick(source, merged)], committer);
    }

    /** `_replay`: HEAD, the index and the files stay as they are. */
    method ReplayCommits(commits: seq<Id>, onto: Id, committer: string) returns (tip: Id, ending: Ending, raised: bool)
      requires Valid() && CommitIds(odb, commits) && onto < |odb|
      modifies this
      ensures Valid() && Continues() && SameCheckout() && tracking == old(tracking) && fork == old(fork)
      ensures labels == old(labels) + [LocalMove]
      ensures var picked := Picks(old(odb), commits, old(odb)[onto].tree);
              !raised ==> SourcesKnown(old(odb), picked.picks) && ending == picked.ending && !ending.Rootless? &&
                          odb == Chain(old(odb), onto, picked.picks, committer) &&
                          tip == ChainTip(old(odb), onto, picked.picks)
    {
      tip, ending, raised := CherryPick(commits, onto, committer);
      if tracking.Some? { TrackingStaysValid(old(odb), odb, tracking.value); }
      Record(LocalMove);
    }

    /** A hard reset; one that fails can leave any checkout behind. */
    method HardReset(to: Id) returns (ok: bool)
      requires Valid() && to < |odb|
      modifies this
      ensures Valid() && Continues() && odb == old(odb) && tracking == old(tracking) && fork == old(fork)
      ensures labels == old(labels) + [LocalMove]
      ensures ok ==> head == to && index == odb[to].tree && worktree == odb[to].tree
    {
      ok := *;
      if ok {
        head, index, worktree := to, odb[to].tree, odb[to].tree;
      } else {
        var somewhere: Id :| somewhere < |odb|;
        head, index, worktree := somewhere, *, *;
      }
      Record(LocalMove);
    }

    /** The replay and reset of `sync_with_origin`, undone when something fails. */
    method TakeRemote(localCommits: seq<Id>, committer: string) returns (r: TakeResult)
      requires Valid() && tracking.Some? && !IsDirty(View()) && CommitIds(odb, localCommits) &&
               tracking.value.target < |odb|
      modifies this
      ensures Valid() && Continues() && tracking == old(tracking) && OnlySteps(|old(labels)|, {LocalMove})
      ensures var picked := Picks(old(odb), localCommits, old(odb)[tracking.value.target].tree);
              match r
              case Took(tip) =>
                picked.ending.Completed? && MovedTo(old(View()), picked.picks, committer) && head == tip &&
                                Settled(odb, head, tracking) && (tip == tracking.value.target <==> picked.picks == [])
              case Conflicts(files) => picked.ending == Conflicting(files) && SameCheckout()
              case Failed(restored) => restored ==> SameCheckout()
    {
      assert ValidState(Now());
      var start, remote, local := odb, tracking.value.target, head;
      var tip, ending, raised := ReplayCommits(localCommits, remote, committer);
      if !raised && ending.Conflicting? {
        return Conflicts(ending.files);
      }
      assert ValidState(Now());
      var reset := false;
      if !raised {
        ghost var picks := Picks(start, localCommits, start[remote].tree).picks;
        ReplayedIsSettled(start, tracking.value, picks, committer);
        ChainShape(start, remote, picks, committer);
        reset := HardReset(tip);
      }
      if reset {
        return Took(tip);
      }
      assert odb[local] == start[local];
      reset := HardReset(local);
      return Failed(reset);
    }

    /** HEAD, the index and the files are those of `at`. */
    ghost predicate CheckoutOf(at: Local)
      reads this
    {
      head == at.head && index == at.index && worktree == at.worktree
    }

    /** HEAD is settled, with respect to the fetched tip as well as the tracking ref now, and the files are clean. */
    ghost predicate InSync(at: Local)
      reads this
    {
      at.tracking.Some? && tracking.Some? && head < |odb| && !IsDirty(View()) &&
      Reaches(odb, head, at.tracking.value.target) &&
      Settled(odb, head, at.tracking) && Settled(odb, head, tracking)
    }

    /** What a sync that found `at` after its fetch reports as `r`, and leaves behind. */
    ghost predicate SyncOutcome(at: Local, restoreBranch: bool, committer: string, r: SyncResult)
      reads this
      requires WellFormed(at.odb) && at.head < |at.odb| && (at.tracking.Some? ==> at.tracking.value.target < |at.odb|)
    {
      match r
      case FetchFailed => false
      case Unreadable => CheckoutOf(at)
      case RestoreFailed => CheckoutOf(at) && Decide(at, restoreBranch).RestoreBranch?
      case ReplayFailed(restored) =>
        (Decide(at, restoreBranch).ConflictOn? || Decide(at, restoreBranch).MoveTo? ||
         Decide(at, restoreBranch).NothingToReplayOnto?) &&
        tracking == at.tracking && (restored ==> CheckoutOf(at))
      case Synced(status, _, _, _, _) =>
        Reports(r, Decide(at, restoreBranch)) &&
        (status !in {Updated, Merged} ==> CheckoutOf(at)) &&
        (status in {Updated, Merged} ==> MovedTo(at, Decide(at, restoreBranch).picks, committer)) &&
        (status in {UpToDate, Updated, Merged} ==> InSync(at)) &&
        (status == RemoteRestored ==> tracking.Some? && LogReaches(odb, tracking.value.log, head)) &&
        (status in {Updated, Dirty, Conflict, RemoteMissing} ==> tracking == at.tracking)
    }

    /**
      What the fetch and the files decide before anything else: whether the branch is `missing` on the fork, and
      uncommitted work. A missing branch is only put back when asked for, and never with uncommitted work around.
     */
    ghost predicate DecidedByFetch(missing: bool, at: Local, restoreBranch: bool, r: SyncResult)
      requires at.head < |at.odb|
    {
      var dirty := at.index != at.odb[at.head].tree || at.worktree != at.index;
      if missing then
        if !restoreBranch then r.Synced? && r.status == RemoteMissing
        else if dirty then r.Unreadable? || (r.Synced? && r.status == Dirty)
        else r.Unreadable? || r.RestoreFailed? || (r.Synced? && r.status == RemoteRestored)
      else
        r.Unreadable? ||
        if dirty then r.Synced? && r.status == Dirty
        else if Settled(at.odb, at.head, at.tracking) then r.Synced? && r.status == UpToDate
        else r.ReplayFailed? || (r.Synced? && r.status in {Updated, Merged, Conflict})
    }

    /** The commit counts that a sync reports. */
    ghost predicate Counted(at: Local, r: SyncResult)
    {
      match r
      case Synced(status, ahead, behind, pulled, files) =>
        if at.tracking.None? then ahead == behind == pulled == 0 && files == {} else
        var target := at.tracking.value.target;
        ahead == (if status in {Updated, Merged} then 0 else |Missing(at.odb, at.head, target)|) &&
        behind == |Missing(at.odb, target, at.head)| &&
        pulled == (if status in {Updated, Merged} then behind else 0) && (status != Conflict ==> files == {})
      case _ => true
    }

    /** `sync_with_origin`; `at` is the local side right after the fetch, when the sync decides what to do. */
    method SyncWithOrigin(restoreBranch: bool, committer: string) returns (r: SyncResult, ghost at: Local)
      requires Valid()
      modifies this
      ensures Valid() && Continues()
      ensures r.FetchFailed? ==>
                SameCheckout() && tracking == old(tracking) && labels == old(labels) + [ForkProtocol.OtherWriters]
      ensures !r.FetchFailed? ==> old(labels) + [ForkProtocol.OtherWriters, ForkProtocol.Fetch(true)] <= labels
      ensures !r.FetchFailed? ==>
                FetchedAt(|old(labels)| + 1, at) && FetchedInto(old(View()), at, states[|old(labels)| + 1].fork) &&
                at.odb <= odb &&
                SyncOutcome(at, restoreBranch, committer, r) && OnlySteps(|old(labels)| + 2, SyncSteps(r))
      ensures SendsCommits(r) ==> ContactedSince(|old(labels)| + 2)
      ensures !r.FetchFailed? ==>
                DecidedByFetch(states[|old(labels)| + 1].fork.None?, at, restoreBranch, r) && Counted(at, r)
      ensures !restoreBranch ==> forall i :: |old(labels)| <= i < |labels| ==> labels[i] != RestorePush
    {
      var fetched := Fetch(true);
      at := View();
      if !fetched {
        return FetchFailed, at;
      }
      assert ValidState(Now());
      r := SyncFetched(restoreBranch, committer);
      assert labels[|old(labels)|] == ForkProtocol.OtherWriters;
      assert labels[|old(labels)| + 1] == ForkProtocol.Fetch(true);
    }

    /** A sync after its fetch. */
    method SyncFetched(restoreBranch: bool, committer: string) returns (r: SyncResult)
      requires Valid() && ValidState(Now())
      modifies this
      ensures Valid() && Continues() && SyncOutcome(old(View()), restoreBranch, committer, r)
      ensures !r.FetchFailed? && OnlySteps(|old(labels)|, SyncSteps(r))
      ensures SendsCommits(r) ==> ContactedSince(|old(labels)|)
      ensures DecidedByFetch(old(tracking).None?, old(View()), restoreBranch, r) && Counted(old(View()), r)
      ensures !restoreBranch ==> forall i :: |old(labels)| <= i < |labels| ==> labels[i] != RestorePush
    {
      if tracking.None? {
        r := SyncMissing(restoreBranch, committer);
      } else {
        r := SyncTracked(restoreBranch, committer);
      }
      assert !restoreBranch ==> RestorePush !in SyncSteps(r);
    }

    /** A sync that finds no branch on the fork. */
    method SyncMissing(restoreBranch: bool, ghost committer: string) returns (r: SyncResult)
      requires Valid() && tracking.None? && head < |odb| && WellFormed(odb)
      modifies this
      ensures Valid() && Continues() && SyncOutcome(old(View()), restoreBranch, committer, r)
      ensures !r.FetchFailed? && OnlySteps(|old(labels)|, SyncSteps(r)) && !SendsCommits(r)
      ensures DecidedByFetch(true, old(View()), restoreBranch, r) && Counted(old(View()), r)
    {
      if !restoreBranch {
        return Synced(RemoteMissing, 0, 0, 0, {});
      }
      var readable := *;
      if !readable {
        return Unreadable;
      }
      if IsDirty(View()) {
        return Synced(Dirty, 0, 0, 0, {});
      }
      var pushed := PushSetUpstream();
      return if pushed then Synced(RemoteRestored, 0, 0, 0, {}) else RestoreFailed;
    }

    /** A sync that finds the branch on the fork. */
    method SyncTracked(restoreBranch: bool, committer: string) returns (r: SyncResult)
      requires Valid() && tracking.Some? && ValidState(Now())
      modifies this
      ensures Valid() && Continues() && SyncOutcome(old(View()), restoreBranch, committer, r)
      ensures !r.FetchFailed? && OnlySteps(|old(labels)|, SyncSteps(r))
      ensures SendsCommits(r) ==> ContactedSince(|old(labels)|)
      ensures DecidedByFetch(false, old(View()), restoreBranch, r) && Counted(old(View()), r)
    {
      var readable := *;
      if !readable {
        return Unreadable;
      }
      var remote := tracking.value.target;
      var ahead, behind := Missing(odb, head, remote), Missing(odb, remote, head);
      if IsDirty(View()) {
        return Synced(Dirty, |ahead|, |behind|, 0, {});
      }
      var (localCommits, rewritten) := UnpushedCommits(odb, head, tracking.value);
      UnpushedIds(odb, head, tracking.value);
      UpToDateIffSettled(View(), restoreBranch);
      if behind == {} && !rewritten {
        if ahead != {} {
          PushSettled();
        }
        return Synced(UpToDate, |ahead|, 0, 0, {});
      }
      r := SyncDiverged(restoreBranch, localCommits, |ahead|, |behind|, committer);
    }

    /** A sync whose HEAD is behind the fork, or holds commits dropped there. */
    method SyncDiverged(ghost restoreBranch: bool, localCommits: seq<Id>, ahead: nat, behind: nat, committer: string)
      returns (r: SyncResult)
      requires Valid() && tracking.Some? && ValidState(Now()) && !IsDirty(View()) && CommitIds(odb, localCommits)
      requires localCommits == UnpushedCommits(odb, head, tracking.value).0 &&
               !Decide(View(), restoreBranch).UpToDateWith?
      modifies this
      ensures Valid() && Continues() && SyncOutcome(old(View()), restoreBranch, committer, r)
      ensures !r.FetchFailed? && OnlySteps(|old(labels)|, SyncSteps(r))
      ensures SendsCommits(r) ==> ContactedSince(|old(labels)|)
      ensures r.ReplayFailed? || (r.Synced? && r.status in {Updated, Merged, Conflict})
      ensures r.Synced? ==>
                r.ahead == (if r.status == Conflict then ahead else 0) && r.behind == behind &&
                r.pulled == (if r.status == Conflict then 0 else behind) &&
                (r.status != Conflict ==> r.conflictingFiles == {})
    {
      var remote := tracking.value.target;
      var taken := TakeRemote(localCommits, committer);
      if taken.Conflicts? {
        return Synced(Conflict, ahead, behind, 0, taken.files);
      }
      if taken.Failed? {
        return ReplayFailed(taken.restored);
      }
      if taken.tip == remote {
        return Synced(Updated, 0, behind, behind, {});
      }
      PushSettled();
      return Synced(Merged, 0, behind, behind, {});
    }

    /** The best-effort push of a settled HEAD. */
    method PushSettled()
      requires Valid() && Settled(odb, head, tracking)
      modifies this
      ensures Valid() && Continues() && SameCheckout() && tracking.Some?
      ensures Settled(odb, head, old(tracking)) && Settled(odb, head, tracking)
      ensures OnlySteps(|old(labels)|, {ForkProtocol.OtherWriters, LeasedPush})
      ensures |old(labels)| < |labels| && labels[|old(labels)|] == ForkProtocol.OtherWriters
    {
      assert ValidState(Now());
      var _ := Push();
      HoldsDroppedStable(old(odb), odb, head, old(tracking).value);
      assert ValidState(Now());
      if tracking != old(tracking) {
        HeadIsSettled(odb, head, old(tracking).value);
      }
    }

    /**
      A sync of a clean, settled workspace moves nothing and is up to date, if its fetch finds the fork
      where it was last seen, or at HEAD; all that can keep it from saying so is a status that cannot be read.
     */
    method SyncSettled(restoreBranch: bool, committer: string) returns (r: SyncResult)
      requires Valid() && Settled(odb, head, tracking) && head < |odb| && !IsDirty(View())
      modifies this
      ensures Valid() && Continues() && |old(labels)| < |labels|
      ensures r.FetchFailed? ==> SameCheckout()
      ensures !r.FetchFailed? ==> |old(labels)| + 1 < |labels| && labels[|old(labels)| + 1] == ForkProtocol.Fetch(true)
      ensures !r.FetchFailed? && states[|old(labels)| + 1].fork in {Target(old(tracking)), Some(old(head))} ==>
                SameCheckout() && (r.Unreadable? || (r.Synced? && r.status == UpToDate))
    {
      assert ValidState(Now());
      ghost var at;
      r, at := SyncWithOrigin(restoreBranch, committer);
      if !r.FetchFailed? {
        ghost var found := states[|old(labels)| + 1].fork;
        if found in {Target(old(tracking)), Some(old(head))} {
          SettledAfterFetch(old(View()), at, found.value);
          UpToDateIffSettled(at, restoreBranch);
        }
      }
    }

    /** What the next sync needs to know of one. */
    method SyncOnce(restoreBranch: bool, committer: string) returns (r: SyncResult)
      requires Valid()
      modifies this
      ensures Valid() && Continues() && |old(labels)| < |labels|
      ensures r.Synced? && r.status in {UpToDate, Updated, Merged} ==>
                Settled(odb, head, tracking) && head < |odb| && !IsDirty(View())
    {
      ghost var at;
      r, at := SyncWithOrigin(restoreBranch, committer);
    }

    /**
      The same right after any sync that succeeded: also when its push failed, and when that push was
      applied but its reply got lost. `between` is the local side after the first sync, at entry `mid` of
      the trace.
     */
    method SyncTwice(restoreBranch: bool, committer: string)
      returns (first: SyncResult, second: SyncResult, ghost between: Local, ghost mid: nat)
      requires Valid()
      modifies this
      ensures Valid() && Continues()
      ensures |old(labels)| < mid < |labels| &&
              State(between.odb, states[mid].fork, between.head, between.tracking) == states[mid]
      ensures first.Synced? && first.status in {UpToDate, Updated, Merged} && second.FetchFailed? ==>
                CheckoutOf(between)
      ensures first.Synced? && first.status in {UpToDate, Updated, Merged} && !second.FetchFailed? ==>
                mid + 1 < |labels| && labels[mid + 1] == ForkProtocol.Fetch(true) &&
                (states[mid + 1].fork in {Target(between.tracking), Some(between.head)} ==>
                    CheckoutOf(between) && (second.Unreadable? || (second.Synced? && second.status == UpToDate)))
    {
      first := SyncOnce(restoreBranch, committer);
      between, mid := View(), |labels|;
      if first.Synced? && first.status in {UpToDate, Updated, Merged} {
        second := SyncSettled(restoreBranch, committer);
      } else {
        second := SyncOnce(restoreBranch, committer);
      }
    }

    /** HEAD has a commit that, by the tracking ref and its reflog, was never on the fork. */
    ghost predicate HasUnpushed(s: State) {
      s.tracking.Some? &&
      exists a: Id ::
        Reaches(s.odb, s.head, a) && !Reaches(s.odb, s.tracking.value.target, a) &&
        !LogReaches(s.odb, s.tracking.value.log, a)
    }

    /**
      `ensure_branch_pushed`: true when something had to be pushed. It fails only if the fetch or a push does, or if
      HEAD holds dropped commits.
     */
    method EnsureBranchPushed() returns (r: EnsureResult)
      requires Valid()
      modifies this
      ensures Valid() && Continues() && SameCheckout()
      ensures r != NotDelivered ==> OnForkOnce()
      ensures r != NotDelivered ==>
                |labels| >= |old(labels)| + 2 && labels[|old(labels)| + 1] == ForkProtocol.Fetch(true)
      ensures r == NothingToDeliver ==> |labels| == |old(labels)| + 2
      ensures r == Delivered ==> states[|old(labels)| + 1].fork.None? || HasUnpushed(states[|old(labels)| + 2])
      ensures r == NotDelivered ==>
                labels == old(labels) + [ForkProtocol.OtherWriters] || ContactedSince(|old(labels)| + 2) ||
                (tracking.Some? && HoldsDropped(odb, head, tracking.value))
      ensures RestorePush in labels[|old(labels)|..] ==> states[|old(labels)| + 1].fork.None?
    {
      var fetched := Fetch(true);
      if !fetched {
        return NotDelivered;
      }
      ghost var n := |labels|;
      if tracking.None? {
        var restored := PushSetUpstream();
        if restored {
          EverythingDelivered();
        }
        assert labels[n] == ForkProtocol.OtherWriters;
        return if restored then Delivered else NotDelivered;
      }
      r := DeliverUnpushed();
      assert forall i :: n <= i < |labels| ==> labels[i] != RestorePush;
    }

    /** The rest of it, with the branch on the fork. */
    method DeliverUnpushed() returns (r: EnsureResult)
      requires Valid() && tracking.Some?
      modifies this
      ensures Valid() && Continues() && SameCheckout()
      ensures OnlySteps(|old(labels)|, {ForkProtocol.OtherWriters, LeasedPush})
      ensures r != NotDelivered ==> OnForkOnce()
      ensures r == NothingToDeliver ==> labels == old(labels)
      ensures r == Delivered ==> HasUnpushed(states[|old(labels)|])
      ensures r == NotDelivered ==>
                ContactedSince(|old(labels)|) || (tracking.Some? && HoldsDropped(odb, head, tracking.value))
    {
      assert ValidState(Now());
      var (localCommits, _) := UnpushedCommits(odb, head, tracking.value);
      if localCommits == [] {
        forall a: Id | Reaches(odb, head, a)
          ensures Reaches(odb, tracking.value.target, a) || LogReaches(odb, tracking.value.log, a)
        {
          NeverOnOrigin(odb, head, tracking.value, a);
        }
        return NothingToDeliver;
      }
      NeverOnOrigin(odb, head, tracking.value, localCommits[0]);
      assert HasUnpushed(Now()) && states[|labels|] == Now();
      ghost var n := |labels|;
      var pushed := Push();
      assert pushed != Rewritten ==> labels[n] == ForkProtocol.OtherWriters;
      return if pushed == Pushed then Delivered else NotDelivered;
    }

    /** Every commit of HEAD was on the fork, by the tracking ref or its reflog. */
    ghost predicate OnForkOnce()
      reads this
    {
      tracking.Some? &&
      forall a: Id :: Reaches(odb, head, a) ==>
          Reaches(odb, tracking.value.target, a) || LogReaches(odb, tracking.value.log, a)
    }

    lemma EverythingDelivered()
      requires Valid() && tracking.Some? && LogReaches(odb, tracking.value.log, head)
      ensures OnForkOnce()
    {
      assert ValidState(Now());
      var s :| s in Seen(odb, tracking.value.log) && Reaches(odb, s, head);
      forall a: Id | Reaches(odb, head, a) ensures LogReaches(odb, tracking.value.log, a) {
        ReachesTransitive(odb, s, head, a);
      }
    }

    /** HEAD, index and files are at the tip of the replayed chain on the fetched tip. */
    ghost predicate MovedTo(at: Local, picks: seq<Pick>, committer: string)
      reads this
      requires at.tracking.Some?
    {
      SourcesKnown(at.odb, picks) && Chain(at.odb, at.tracking.value.target, picks, committer) <= odb &&
      head == ChainTip(at.odb, at.tracking.value.target, picks) && head < |odb| && index == worktree == odb[head].tree
    }
  }
}
