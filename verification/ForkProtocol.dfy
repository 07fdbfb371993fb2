/**
  The fork branch as a shared variable: other writers advance, rewrite or delete it at any time,
  the server fetches it and pushes to it under a lease. The state is what the push safety depends
  on; every step is atomic, and a run is any interleaving of steps.
 */
module ForkProtocol {
  import opened Commits
  import opened Unpushed

  /** `fork` is the branch on GitHub, `head` the local branch, `tracking` the local `origin/<branch>`. */
  datatype State = State(odb: Odb, fork: Option<Id>, head: Id, tracking: Option<Tracking>)

  datatype Label =
    | OtherWriters             // the fork branch is advanced, rewritten, deleted or created on GitHub
    | Fetch(prune: bool)       // the tracking ref follows the fork
    | LocalMove                // commits are created, HEAD moves
    | LeasedPush               // GitService.push
    | RestorePush              // the push of GitService.push with set_upstream

  ghost predicate ValidTracking(odb: Odb, ref: Tracking) {
    ref.target < |odb| && ref.target in Seen(odb, ref.log) && LogKnown(odb, ref.log)
  }

  ghost predicate ValidState(s: State) {
    WellFormed(s.odb) && s.head < |s.odb| &&
    (s.fork.Some? ==> s.fork.value < |s.odb|) &&
    (s.tracking.Some? ==> ValidTracking(s.odb, s.tracking.value))
  }

  // --- Updates of the tracking ref ---

  function Target(tracking: Option<Tracking>): Option<Id> {
    if tracking.Some? then Some(tracking.value.target) else None
  }

  /** The tracking ref moved to `tip`, with a reflog entry unless it is there already. */
  function Follow(tracking: Option<Tracking>, tip: Id): Tracking {
    if tracking.None? then Tracking(tip, [LogEntry(None, tip)])
    else if tracking.value.target == tip then tracking.value
    else Tracking(tip, tracking.value.log + [LogEntry(Some(tracking.value.target), tip)])
  }

  /** The tracking ref after a fetch; only a pruning fetch notices that the branch is gone. */
  function Fetched(tracking: Option<Tracking>, fork: Option<Id>, prune: bool): Option<Tracking> {
    match fork
    case Some(tip) => Some(Follow(tracking, tip))
    case None => if prune then None else tracking
  }

  lemma FollowIsValid(odb: Odb, tracking: Option<Tracking>, tip: Id)
    requires tip < |odb| && (tracking.Some? ==> ValidTracking(odb, tracking.value))
    ensures ValidTracking(odb, Follow(tracking, tip))
  {
    var ref := Follow(tracking, tip);
    if tracking.None? || tracking.value.target != tip {
      var e := ref.log[|ref.log| - 1];
      assert e in ref.log && e.newOid == tip;
    }
  }

  lemma TrackingStaysValid(odb: Odb, odb': Odb, ref: Tracking)
    requires odb <= odb' && ValidTracking(odb, ref)
    ensures ValidTracking(odb', ref) && Seen(odb', ref.log) == Seen(odb, ref.log)
  {
  }

  // --- When a push goes through ---

  /** One ref of a push: where the branch is on GitHub, and where the push moves it. */
  datatype Update = Update(src: Option<Id>, dst: Option<Id>)

  /**
    `LeasedPushCredentials.push_negotiation` lets a push go on: the branch is where it was last seen, or already
    there.
   */
  predicate LeaseHolds(updates: seq<Update>, expected: Option<Id>) {
    forall u :: u in updates ==> u.src == expected || u.src == u.dst
  }

  /** Git's rule for a push without force. */
  predicate FastForward(odb: Odb, fork: Option<Id>, head: Id) {
    fork.None? || Reaches(odb, head, fork.value)
  }

  predicate LeasedPushAllowed(s: State) {
    (s.tracking.Some? ==> !UnpushedCommits(s.odb, s.head, s.tracking.value).1) &&
    LeaseHolds([Update(s.fork, Some(s.head))], Target(s.tracking)) &&
    FastForward(s.odb, s.fork, s.head)
  }

  /** After a push the fork is at HEAD; the tracking ref too, unless the reply got lost. */
  ghost predicate PushApplied(s: State, s': State) {
    s'.fork == Some(s.head) && (s'.tracking == s.tracking || s'.tracking == Some(Follow(s.tracking, s.head)))
  }

  ghost predicate Step(s: State, what: Label, s': State) {
    ValidState(s) && ValidState(s') && s.odb <= s'.odb &&
    match what
    case OtherWriters => s'.head == s.head && s'.tracking == s.tracking
    case Fetch(prune) => s' == s.(tracking := Fetched(s.tracking, s.fork, prune))
    case LocalMove => s'.fork == s.fork && s'.tracking == s.tracking
    case LeasedPush => s'.odb == s.odb && s'.head == s.head && (s' == s || (LeasedPushAllowed(s) && PushApplied(s, s')))
    case RestorePush =>
      s'.odb == s.odb && s'.head == s.head && (s' == s || (FastForward(s.odb, s.fork, s.head) && PushApplied(s, s')))
  }

  ghost predicate IsRun(states: seq<State>, labels: seq<Label>) {
    |states| == |labels| + 1 &&
    (forall i :: 0 <= i < |states| ==> ValidState(states[i])) &&
    (forall i :: 0 <= i < |labels| ==> Step(states[i], labels[i], states[i + 1]))
  }

  /** The branch on GitHub contains commit `a`. */
  ghost predicate OnFork(s: State, a: Id) {
    s.fork.Some? && Reaches(s.odb, s.fork.value, a)
  }

  /** The server has seen `a` on the fork, by the reflog of the tracking ref it still has. */
  ghost predicate Recorded(s: State, a: Id) {
    s.tracking.Some? && LogReaches(s.odb, s.tracking.value.log, a)
  }

  // --- One push ---

  /**
    A leased push leaves the branch where it is, or moves it from the tip the server last saw to
    a HEAD that descends from it; what it adds to the branch was never recorded there before.
   */
  lemma LeasedPushOnlyAdvances(s: State, s': State)
    requires Step(s, LeasedPush, s')
    ensures s'.fork == s.fork ||
            (s.fork == Target(s.tracking) && s'.fork == Some(s.head) &&
            (s.fork.Some? ==> Reaches(s.odb, s.head, s.fork.value)))
    ensures forall a: Id :: OnFork(s, a) ==> OnFork(s', a)
    ensures forall a: Id :: OnFork(s', a) && Recorded(s, a) ==> OnFork(s, a)
  {
    if s' != s {
      assert Update(s.fork, Some(s.head)) in [Update(s.fork, Some(s.head))];
      if s.tracking.Some? {
        RewrittenIffHoldsDropped(s.odb, s.head, s.tracking.value);
      }
      forall a: Id | OnFork(s, a) ensures OnFork(s', a) {
        ReachesTransitive(s.odb, s.head, s.fork.value, a);
      }
    }
  }

  /** The lease is no obstacle: a HEAD on top of the last fetched tip, without dropped commits, may be pushed. */
  lemma UncontestedPushAllowed(s: State)
    requires ValidState(s) && s.tracking.Some? && s.fork == Some(s.tracking.value.target)
    requires Reaches(s.odb, s.head, s.tracking.value.target) && !HoldsDropped(s.odb, s.head, s.tracking.value)
    ensures LeasedPushAllowed(s)
  {
    RewrittenIffHoldsDropped(s.odb, s.head, s.tracking.value);
  }

  /** Nor does it stand in the way of pushing what is on the fork already. */
  lemma RepeatedPushAllowed(s: State)
    requires ValidState(s) && s.fork == Some(s.head)
    requires s.tracking.Some? ==> !HoldsDropped(s.odb, s.head, s.tracking.value)
    ensures LeasedPushAllowed(s)
  {
    if s.tracking.Some? {
      RewrittenIffHoldsDropped(s.odb, s.head, s.tracking.value);
    }
  }

  /** Restoring a branch takes nothing off the fork either. */
  lemma RestorePushOnlyAdds(s: State, s': State, a: Id)
    requires Step(s, RestorePush, s')
    ensures OnFork(s, a) ==> OnFork(s', a)
    ensures s'.fork == s.fork || s'.fork == Some(s.head)
  {
    if s' != s && OnFork(s, a) {
      ReachesTransitive(s.odb, s.head, s.fork.value, a);
    }
  }

  // --- All runs ---

  lemma SeenGrows(odb: Odb, odb': Odb, log: seq<LogEntry>, log': seq<LogEntry>, a: Id)
    requires odb <= odb' && log <= log' && LogReaches(odb, log, a)
    ensures LogReaches(odb', log', a)
  {
    var s :| s in Seen(odb, log) && Reaches(odb, s, a);
    ReachesStable(odb, odb', s, a);
    assert forall e :: e in log ==> e in log';
    assert s in Seen(odb', log');
  }

  lemma FollowKeepsLog(tracking: Tracking, tip: Id)
    ensures tracking.log <= Follow(Some(tracking), tip).log
  {
  }

  lemma StepKeepsRecord(s: State, what: Label, s': State, a: Id)
    requires Step(s, what, s') && Recorded(s, a) && s'.tracking.Some?
    ensures Recorded(s', a)
  {
    var before, after := s.tracking.value, s'.tracking.value;
    FollowKeepsLog(before, s.head);
    if s.fork.Some? { FollowKeepsLog(before, s.fork.value); }
    assert before.log <= after.log;
    SeenGrows(s.odb, s'.odb, before.log, after.log, a);
  }

  /** What the server once saw on the fork stays recorded for as long as the tracking ref is kept. */
  lemma {:induction false} RunKeepsRecord(states: seq<State>, labels: seq<Label>, i: nat, k: nat, a: Id)
    requires IsRun(states, labels) && i <= k < |states|
    requires forall j :: i <= j <= k ==> states[j].tracking.Some?
    requires Reaches(states[i].odb, states[i].tracking.value.target, a)
    ensures Recorded(states[k], a)
    decreases k
  {
    if i < k {
      RunKeepsRecord(states, labels, i, k - 1, a);
      assert Step(states[k - 1], labels[k - 1], states[k]);
      StepKeepsRecord(states[k - 1], labels[k - 1], states[k], a);
    } else {
      assert ValidState(states[i]);
    }
  }

  /**
    Over every interleaving: a commit the server saw on the fork and that has since been dropped
    there does not come back through a leased push, as long as the tracking ref was not pruned.
   */
  lemma NoResurrection(states: seq<State>, labels: seq<Label>, i: nat, k: nat, a: Id)
    requires IsRun(states, labels) && i <= k < |labels| && labels[k] == LeasedPush
    requires forall j :: i <= j <= k ==> states[j].tracking.Some?
    requires Reaches(states[i].odb, states[i].tracking.value.target, a)
    requires !OnFork(states[k], a)
    ensures !OnFork(states[k + 1], a)
  {
    RunKeepsRecord(states, labels, i, k, a);
    assert Step(states[k], labels[k], states[k + 1]);
    LeasedPushOnlyAdvances(states[k], states[k + 1]);
  }

  ghost predicate WasForkTip(states: seq<State>, k: nat, tip: Id) {
    exists i :: 0 <= i <= k && i < |states| && states[i].fork == Some(tip)
  }

  ghost predicate LogEntriesWereTips(states: seq<State>, k: nat, log: seq<LogEntry>) {
    forall e :: e in log ==>
        WasForkTip(states, k, e.newOid) && (e.oldOid.Some? ==> WasForkTip(states, k, e.oldOid.value))
  }

  lemma FollowTips(states: seq<State>, k: nat, tracking: Option<Tracking>, tip: Id)
    requires WasForkTip(states, k, tip)
    requires tracking.Some? ==>
               WasForkTip(states, k, tracking.value.target) && LogEntriesWereTips(states, k, tracking.value.log)
    ensures LogEntriesWereTips(states, k, Follow(tracking, tip).log)
  {
  }

  /**
    The record is honest: in a run that starts without a tracking ref, the reflog only names former tips of the fork.
   */
  lemma {:induction false} RecordIsForkHistory(states: seq<State>, labels: seq<Label>, k: nat)
    requires IsRun(states, labels) && k < |states| && states[0].tracking.None?
    ensures states[k].tracking.Some? ==>
              WasForkTip(states, k, states[k].tracking.value.target) &&
              LogEntriesWereTips(states, k, states[k].tracking.value.log)
    decreases k
  {
    if k > 0 && states[k].tracking.Some? {
      RecordIsForkHistory(states, labels, k - 1);
      var s, s', tracking := states[k - 1], states[k], states[k - 1].tracking;
      assert Step(s, labels[k - 1], s');
      if tracking.Some? {
        forall tip | WasForkTip(states, k - 1, tip) ensures WasForkTip(states, k, tip) {
        }
        assert LogEntriesWereTips(states, k, tracking.value.log);
      }
      if s'.tracking != tracking {
        var tip := s'.tracking.value.target;
        assert s'.fork == Some(tip);
        assert WasForkTip(states, k, tip);
        FollowTips(states, k, tracking, tip);
      }
    }
  }
}
