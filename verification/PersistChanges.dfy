/**
  `FileService.persist_changes`: commit, push, recover by a sync, push again, and undo the commit
  if it did not get through, as one transaction under the workspace lock.
 */
module PersistChanges {
  import opened Commits
  import opened Replay
  import opened Unpushed
  import opened ForkProtocol
  import opened GitService

  /** What `_repair_fork` finds: an error to report, a healthy fork, or a fork it recreated. */
  datatype Repair = RepairRaised | ForkIsFine | Repaired

  datatype PersistResult =
    | Returned(commit: Id, remoteSync: Option<SyncStatus>)
    | NotCommitted           // the commit could not be created
    | Undone                 // the push error or the conflict, with the changes staged again
    | MergedButNotSent       // the commits sit on GitHub's changes and go out later
    | LeftBehind             // the sync failed while replaying, and restoring HEAD failed too

  /** `is_commit_on_origin`: the fork contains the commit, as of the last fetch or push. */
  predicate IsCommitOnOrigin(odb: Odb, tracking: Option<Tracking>, commit: Id) {
    tracking.Some? && (tracking.value.target == commit || Reaches(odb, tracking.value.target, commit))
  }

  /** `commit_changes`; `head_is_unborn` never holds, as every clone starts on an upstream commit. */
  method CommitChanges(clone: Clone, message: string, author: string) returns (commit: Option<Id>)
    requires clone.Valid()
    modifies clone
    ensures clone.Valid() && clone.Continues() && clone.tracking == old(clone.tracking)
    ensures clone.index == old(clone.index) && clone.worktree == old(clone.worktree)
    ensures commit.None? ==>
              clone.head == old(clone.head) && clone.odb == old(clone.odb) && clone.labels == old(clone.labels)
    ensures commit.Some? ==> clone.labels == old(clone.labels) + [LocalMove]
    ensures commit.Some? ==>
              clone.odb == old(clone.odb) + [Commit([old(clone.head)], old(clone.index), author, author, message)] &&
                             clone.head == commit.value == |old(clone.odb)|
  {
    assert ValidState(clone.Now());
    var fault := *;
    if fault {
      return None;
    }
    var parent := clone.head;
    clone.odb := clone.odb + [Commit([parent], clone.index, author, author, message)];
    clone.head := |clone.odb| - 1;
    if clone.tracking.Some? { TrackingStaysValid(old(clone.odb), clone.odb, clone.tracking.value); }
    clone.Record(LocalMove);
    return Some(clone.head);
  }

  /** `_revert_commit`: a soft reset to the parent, only if HEAD is that commit and has a parent. */
  method RevertCommit(clone: Clone, commit: Id) returns (reverted: bool)
    requires clone.Valid()
    modifies clone
    ensures clone.Valid() && clone.Continues() && clone.odb == old(clone.odb) && clone.tracking == old(clone.tracking)
    ensures clone.index == old(clone.index) && clone.worktree == old(clone.worktree) && old(clone.head) < |clone.odb|
    ensures reverted <==> old(clone.head) == commit && clone.odb[commit].parents != []
    ensures clone.labels == old(clone.labels) + if reverted then [LocalMove] else []
    ensures clone.head == if reverted then clone.odb[commit].parents[0] else old(clone.head)
  {
    assert ValidState(clone.Now());
    if clone.head != commit || clone.odb[commit].parents == [] {
      return false;
    }
    clone.head := clone.odb[commit].parents[0];
    clone.Record(LocalMove);
    return true;
  }

  /** `_repair_fork`: a fork that is gone is recreated, and this workspace's branch pushed to it. */
  method RepairFork(clone: Clone) returns (r: Repair)
    requires clone.Valid()
    modifies clone
    ensures clone.Valid() && clone.Continues() && clone.SameCheckout()
    ensures r == Repaired ==> clone.tracking.Some? && LogReaches(clone.odb, clone.tracking.value.log, clone.head)
    ensures r == Repaired ==> clone.labels == old(clone.labels) + [ForkProtocol.OtherWriters] + RESTORE_STEPS
    ensures r == ForkIsFine ==> clone.labels == old(clone.labels) + [ForkProtocol.OtherWriters]
    ensures r == RepairRaised ==> clone.labels <= old(clone.labels) + [ForkProtocol.OtherWriters] + RESTORE_STEPS
    ensures old(clone.labels) + [ForkProtocol.OtherWriters] <= clone.labels
  {
    clone.OtherWriters();
    var found: Repair := *;
    if found != Repaired {
      return found;
    }
    var pushed := clone.PushSetUpstream();
    return if pushed then Repaired else RepairRaised;
  }

  /**
    The trace of a push with recovery, after `before`: nothing if it was refused; otherwise the push, and if that
    failed, applied or not, the look at the fork and its repair.
   */
  predicate PushSteps(before: seq<Label>, labels: seq<Label>, first: PushResult, repair: Option<Repair>) {
    match first
    case Rewritten => labels == before
    case Pushed => labels == before + [ForkProtocol.OtherWriters, LeasedPush]
    case PushFailed =>
      var repaired := [ForkProtocol.OtherWriters] + if repair == Some(Repaired) then RESTORE_STEPS else [];
      before + [ForkProtocol.OtherWriters] + repaired <= labels ||
      before + [ForkProtocol.OtherWriters, LeasedPush] + repaired <= labels
  }

  /**
    `with_remote_recovery` around a push: false stands for any HTTPException. The fork is looked at only if
    the push failed on the remote, and the push retried, once, only if the fork had to be recreated.
   */
  method PushWithRecovery(clone: Clone)
    returns (pushed: bool, ghost first: PushResult, ghost repair: Option<Repair>, ghost retry: Option<PushResult>)
    requires clone.Valid()
    modifies clone
    ensures clone.Valid() && clone.Continues() && clone.SameCheckout()
    ensures first == Rewritten <==>
              old(clone.tracking.Some? && HoldsDropped(clone.odb, clone.head, clone.tracking.value))
    ensures (repair.Some? <==> first == PushFailed) && (retry.Some? <==> repair == Some(Repaired))
    ensures pushed <==> first == Pushed || retry == Some(Pushed)
    ensures pushed ==>
              clone.tracking.Some? && clone.tracking.value.target == clone.head && clone.fork == Some(clone.head)
    ensures PushSteps(old(clone.labels), clone.labels, first, repair)
    ensures repair == Some(ForkIsFine) ==> clone.OnlySteps(|old(clone.labels)|, {ForkProtocol.OtherWriters, LeasedPush})
    ensures repair == Some(Repaired) ==> RestorePush in clone.labels[|old(clone.labels)|..]
  {
    repair, retry := None, None;
    var r := clone.Push();
    first := r;
    pushed := r == Pushed;
    if r == PushFailed {
      ghost var found;
      pushed, found, retry := RepairAndRetry(clone);
      repair := Some(found);
    }
  }

  /** What `with_remote_recovery` does about a remote that failed. */
  method RepairAndRetry(clone: Clone) returns (pushed: bool, ghost found: Repair, ghost retry: Option<PushResult>)
    requires clone.Valid()
    modifies clone
    ensures clone.Valid() && clone.Continues() && clone.SameCheckout()
    ensures (retry.Some? <==> found == Repaired) && (pushed <==> retry == Some(Pushed))
    ensures pushed ==>
              clone.tracking.Some? && clone.tracking.value.target == clone.head && clone.fork == Some(clone.head)
    ensures found == ForkIsFine ==> clone.labels == old(clone.labels) + [ForkProtocol.OtherWriters]
    ensures old(clone.labels) + [ForkProtocol.OtherWriters] + (if found == Repaired then RESTORE_STEPS else []) <=
            clone.labels
    ensures found == Repaired ==> RestorePush in clone.labels[|old(clone.labels)|..]
  {
    retry := None;
    var repair := RepairFork(clone);
    found := repair;
    if repair != Repaired {
      return false, found, retry;
    }
    ghost var restored := |old(clone.labels)| + 2;
    assert clone.labels[restored] == RestorePush;
    var again := clone.Push();
    assert clone.labels[restored] == RestorePush;
    return again == Pushed, found, Some(again);
  }

  /** The local commits, `made` the last of them, were replayed on the tip the sync had fetched. */
  ghost predicate OnFetchedTip(clone: Clone, made: Id, at: Local)
    reads clone
  {
    at.tracking.Some? && WellFormed(at.odb) && at.head == made < |at.odb| <= |clone.odb| &&
    at.tracking.value.target < |at.odb| &&
    Decide(at, true).MoveTo? && Decide(at, true).picks != [] &&
    clone.MovedTo(at, Decide(at, true).picks, clone.odb[made].committer)
  }

  /** What the recovering sync leads to. `onOrigin`: the commit of the call is on the fork, by the tracking ref. */
  predicate LeadsTo(sync: SyncResult, made: Id, onOrigin: bool, r: PersistResult) {
    if sync == ReplayFailed(false) then r == LeftBehind
    else if !sync.Synced? || sync.status == Conflict then r == Undone
    else if sync.status == Merged then r == MergedButNotSent || (r.Returned? && r.remoteSync == Some(Merged))
    else if sync.status == Updated then r.Returned? && r.remoteSync == Some(Updated)
    else r == if onOrigin then Returned(made, None) else Undone
  }

  /** After the fetch at entry `n` of the trace, two pushes were made. */
  ghost predicate PushedTwiceSince(clone: Clone, n: nat)
    reads clone
  {
    exists i :: n < i < |clone.labels| && clone.labels[i] == ForkProtocol.OtherWriters && clone.ContactedSince(i + 1)
  }

  /**
    What is left behind by the outcome `r`, for a call that found HEAD at `head` with `index` staged
    and made commit `made`. `sync` and `at` are the recovering sync and what its fetch left, at entry
    `fetch` of the trace, and `undone` is the commit the undo took off HEAD.
   */
  ghost predicate Outcome(clone: Clone, head: Id, index: Tree, made: Id, r: PersistResult,
                          sync: Option<SyncResult>, at: Local, fetch: nat, undone: Option<Id>)
    reads clone
  {
    (undone.Some? ==> undone.value == made) &&
    (sync.Some? && !sync.value.FetchFailed? ==> clone.FetchedAt(fetch, at)) &&
    (r == LeftBehind <==> sync == Some(ReplayFailed(false))) &&
    (match sync
     case None => r == NotCommitted || r == Returned(made, None)
     case Some(s) => LeadsTo(s, made, IsCommitOnOrigin(clone.odb, clone.tracking, made), r)) &&
    match r
    case Returned(commit, _) =>
      clone.tracking.Some? && Reaches(clone.odb, clone.tracking.value.target, commit) &&
      Reaches(clone.odb, clone.head, commit) &&
      commit == (if Reaches(clone.odb, clone.head, made) then made else clone.head) && undone.None?
    case NotCommitted => clone.head == head && clone.index == index && undone.None?
    case Undone => clone.head == head && clone.index == index && undone == Some(made)
    case MergedButNotSent => undone.None? && sync.Some? && !sync.value.FetchFailed? && OnFetchedTip(clone, made, at)
    case LeftBehind => true
  }

  /** The steps of a call in which neither a fork repair nor the recovering sync puts a branch back. */
  const LEASED_STEPS := {LocalMove, ForkProtocol.OtherWriters, Fetch(true), LeasedPush}

  predicate PutsBranchBack(repair: Option<Repair>, sync: Option<SyncResult>) {
    (repair.Some? && repair != Some(ForkIsFine)) ||
    (sync.Some? && (sync.value.RestoreFailed? || (sync.value.Synced? && sync.value.status == RemoteRestored)))
  }

  /** Committing on top of HEAD does not change whether it holds commits that were dropped on the fork. */
  lemma CommitHoldsDropped(odb: Odb, c: Commit, head: Id, ref: Tracking)
    requires WellFormed(odb) && head < |odb| && ValidTracking(odb, ref) && c.parents == [head]
    ensures HoldsDropped(odb + [c], |odb|, ref) <==> HoldsDropped(odb, head, ref)
  {
    var odb' := odb + [c];
    HoldsDroppedStable(odb, odb', head, ref);
    forall a: Id ensures Reaches(odb', |odb|, a) <==> a == |odb| || Reaches(odb', head, a) {
      assert odb'[|odb|].parents[0] == head;
    }
    if LogReaches(odb', ref.log, |odb|) {
      LogReachStable(odb, odb', ref, |odb|);
      var s :| s in Seen(odb, ref.log) && Reaches(odb, s, |odb|);
      ReachesIsOlder(odb, s, |odb|);
    }
  }

  /** The commit and its first push, with the recovery of the fork; `first` is None if nothing was committed. */
  method CommitAndPush(clone: Clone, message: string, author: string)
    returns (commit: Option<Id>, pushed: bool, ghost first: Option<PushResult>, ghost repair: Option<Repair>,
        ghost retry: Option<PushResult>)
    requires clone.Valid()
    modifies clone
    ensures clone.Valid() && clone.Continues() && clone.index == old(clone.index)
    ensures (first.Some? <==> commit.Some?) && (repair.Some? <==> first == Some(PushFailed)) &&
            (retry.Some? <==> repair == Some(Repaired))
    ensures pushed <==> first == Some(Pushed) || retry == Some(Pushed)
    ensures commit.None? ==> clone.head == old(clone.head) && clone.labels == old(clone.labels)
    ensures commit.Some? ==>
              clone.head == commit.value == |old(clone.odb)| &&
              old(clone.odb) + [Commit([old(clone.head)], old(clone.index), author, author, message)] <= clone.odb &&
              PushSteps(old(clone.labels) + [LocalMove], clone.labels, first.value, repair)
    ensures first == Some(Rewritten) <==>
              commit.Some? && old(clone.tracking.Some? && HoldsDropped(clone.odb, clone.head, clone.tracking.value))
    ensures pushed ==> clone.tracking.Some? && clone.tracking.value.target == clone.head
    ensures repair in {None, Some(ForkIsFine)} ==> clone.OnlySteps(|old(clone.labels)|, LEASED_STEPS)
  {
    pushed, first, repair, retry := false, None, None, None;
    commit := CommitChanges(clone, message, author);
    if commit.None? {
      return;
    }
    assert ValidState(old(clone.Now()));
    if clone.tracking.Some? {
      CommitHoldsDropped(old(clone.odb), clone.odb[commit.value], old(clone.head), clone.tracking.value);
    }
    ghost var firstPush;
    pushed, firstPush, repair, retry := PushWithRecovery(clone);
    first := Some(firstPush);
  }

  /**
    The transaction of `persist_changes`. It returns a commit that HEAD and the fork contain; or it raises
    with HEAD and the index as before the call; or it raises with the local commits replayed on the tip
    that the recovering sync fetched. Only a sync that fails while replaying and cannot restore HEAD leaves
    anything else. That sync is made exactly when neither the first push nor a retry got through. Every push
    is leased, unless the fork was recreated or the branch was missing on it.
   */
  method PersistChanges(clone: Clone, message: string, author: string)
    returns (r: PersistResult, ghost first: Option<PushResult>, ghost repair: Option<Repair>,
        ghost retry: Option<PushResult>, ghost sync: Option<SyncResult>, ghost at: Local, ghost fetch: nat,
        ghost undone: Option<Id>)
    requires clone.Valid()
    modifies clone
    ensures clone.Valid() && clone.Continues() && (r.NotCommitted? ==> clone.labels == old(clone.labels))
    ensures |old(clone.labels)| <= fetch
    ensures Outcome(clone, old(clone.head), old(clone.index), |old(clone.odb)|, r, sync, at, fetch, undone)
    ensures !PutsBranchBack(repair, sync) ==> clone.OnlySteps(|old(clone.labels)|, LEASED_STEPS)
    ensures !r.NotCommitted? ==>
              old(clone.odb) + [Commit([old(clone.head)], old(clone.index), author, author, message)] <= clone.odb
    ensures (first.Some? <==> !r.NotCommitted?) && (repair.Some? <==> first == Some(PushFailed)) &&
            (retry.Some? <==> repair == Some(Repaired))
    ensures sync.Some? <==> first.Some? && first != Some(Pushed) && retry != Some(Pushed)
    ensures first == Some(Rewritten) <==>
              first.Some? && old(clone.tracking.Some? && HoldsDropped(clone.odb, clone.head, clone.tracking.value))
    ensures first.Some? ==>
              (sync.Some? ==> 0 < fetch <= |clone.labels| + 1) &&
              PushSteps(old(clone.labels) + [LocalMove],
                  if sync.Some? then clone.labels[..fetch - 1] else clone.labels, first.value, repair)
    ensures sync.Some? && sync.value.Synced? && sync.value.status == Merged ==> PushedTwiceSince(clone, fetch)
  {
    sync, at, fetch, undone := None, clone.View(), |clone.labels|, None;
    var commit, pushed;
    commit, pushed, first, repair, retry := CommitAndPush(clone, message, author);
    if commit.None? {
      r := NotCommitted;
      return;
    }
    if pushed {
      assert ValidState(clone.Now());
      r := Returned(commit.value, None);
      return;
    }
    ghost var before := clone.labels;
    ghost var recovered;
    r, recovered, at, fetch, undone := RecoverFromRejectedPush(clone, commit.value, author);
    sync := Some(recovered);
    assert clone.labels[..fetch - 1] == before;
  }

  /** The sync after a rejected push, and the second push or the undo. `made` is the commit of this call. */
  method RecoverFromRejectedPush(clone: Clone, made: Id, author: string)
    returns (r: PersistResult, ghost recovered: SyncResult, ghost at: Local, ghost fetch: nat, ghost undone: Option<Id>)
    requires clone.Valid() && clone.head == made < |clone.odb| && |clone.odb[made].parents| == 1 &&
             clone.odb[made].committer == author
    modifies clone
    ensures clone.Valid() && clone.Continues() && !r.NotCommitted?
    ensures fetch == |old(clone.labels)| + 1
    ensures Outcome(clone, old(clone.odb)[made].parents[0], old(clone.index), made, r, Some(recovered), at, fetch,
            undone)
    ensures !PutsBranchBack(None, Some(recovered)) ==> clone.OnlySteps(|old(clone.labels)|, LEASED_STEPS)
    ensures recovered.Synced? && recovered.status == Merged ==> PushedTwiceSince(clone, fetch)
  {
    undone, fetch := None, |clone.labels| + 1;
    var sync;
    sync, at := clone.SyncWithOrigin(true, author);
    recovered := sync;
    assert clone.odb[made] == old(clone.odb)[made];
    assert !PutsBranchBack(None, Some(sync)) ==> SyncSteps(sync) <= LEASED_STEPS;
    assert !PutsBranchBack(None, Some(sync)) ==> clone.OnlySteps(|old(clone.labels)|, LEASED_STEPS);
    if sync.Synced? {
      r, undone := AfterSync(clone, made, sync, at, fetch);
    } else {
      r, undone := AfterFailedSync(clone, made, sync);
    }
  }

  /** What follows a recovering sync that raised. */
  method AfterFailedSync(clone: Clone, made: Id, sync: SyncResult) returns (r: PersistResult, ghost undone: Option<Id>)
    requires clone.Valid() && made < |clone.odb| && |clone.odb[made].parents| == 1
    requires sync != ReplayFailed(false) ==> clone.head == made
    modifies clone
    ensures clone.Valid() && clone.Continues() && clone.index == old(clone.index)
    ensures clone.OnlySteps(|old(clone.labels)|, {LocalMove}) && (undone.Some? ==> undone.value == made)
    ensures if sync == ReplayFailed(false) then r == LeftBehind
            else r == Undone && undone == Some(made) && clone.head == clone.odb[made].parents[0]
  {
    var reverted := RevertCommit(clone, made);
    undone := if reverted then Some(made) else None;
    r := if sync == ReplayFailed(false) then LeftBehind else Undone;
  }

  /** What follows a recovering sync that returned. */
  method AfterSync(clone: Clone, made: Id, sync: SyncResult, ghost at: Local, ghost fetch: nat)
    returns (r: PersistResult, ghost undone: Option<Id>)
    requires clone.Valid() && SyncedFrom(clone, made, sync, at) && clone.FetchedAt(fetch, at)
    modifies clone
    ensures clone.Valid() && clone.Continues() && !r.NotCommitted?
    ensures Outcome(clone, at.odb[made].parents[0], at.index, made, r, Some(sync), at, fetch, undone)
    ensures clone.OnlySteps(|old(clone.labels)|, {LocalMove, ForkProtocol.OtherWriters, LeasedPush})
    ensures sync.status == Merged ==>
              |old(clone.labels)| < |clone.labels| && clone.labels[|old(clone.labels)|] == ForkProtocol.OtherWriters
  {
    undone := None;
    var head := clone.head;
    assert ValidState(clone.Now());
    var commit := if head != made && !Reaches(clone.odb, head, made) then head else made;
    if sync.status == Merged {
      r := PushAgain(clone, commit, made, sync, at, fetch);
    } else if sync.status == Conflict {
      undone := RevertMade(clone, commit);
      r := Undone;
    } else if IsCommitOnOrigin(clone.odb, clone.tracking, commit) {
      r := Returned(commit, if sync.status == Updated then Some(Updated) else None);
    } else {
      assert sync.status != Updated;
      undone := RevertMade(clone, commit);
      r := Undone;
    }
  }

  ghost predicate SyncedFrom(clone: Clone, made: Id, sync: SyncResult, at: Local)
    reads clone
  {
    sync.Synced? && WellFormed(at.odb) && made == at.head < |at.odb| && at.odb <= clone.odb &&
    |at.odb[made].parents| == 1 &&
    (at.tracking.Some? ==> ValidTracking(at.odb, at.tracking.value)) &&
    clone.SyncOutcome(at, true, at.odb[made].committer, sync)
  }

  /** The second push, after the commit was replayed on GitHub's changes: never undone. */
  method PushAgain(clone: Clone, commit: Id, made: Id, sync: SyncResult, ghost at: Local, ghost fetch: nat)
      returns (r: PersistResult)
    requires clone.Valid() && SyncedFrom(clone, made, sync, at) && sync.status == Merged && clone.FetchedAt(fetch, at)
    requires commit == if Reaches(clone.odb, clone.head, made) then made else clone.head
    modifies clone
    ensures clone.Valid() && clone.Continues() && !r.NotCommitted?
    ensures Outcome(clone, at.odb[made].parents[0], at.index, made, r, Some(sync), at, fetch, None)
    ensures clone.OnlySteps(|old(clone.labels)|, {ForkProtocol.OtherWriters, LeasedPush})
    ensures |old(clone.labels)| < |clone.labels| && clone.labels[|old(clone.labels)|] == ForkProtocol.OtherWriters
  {
    var pushed := PushMerged(clone, made, sync, at);
    ReachesStable(old(clone.odb), clone.odb, clone.head, made);
    r := if pushed then Returned(commit, Some(Merged)) else MergedButNotSent;
  }

  /** However the push ends, the replayed commits stay where they are. */
  method PushMerged(clone: Clone, made: Id, sync: SyncResult, ghost at: Local) returns (pushed: bool)
    requires clone.Valid() && SyncedFrom(clone, made, sync, at) && sync.status == Merged
    modifies clone
    ensures clone.Valid() && clone.Continues() && clone.head == old(clone.head) && old(clone.odb) <= clone.odb
    ensures OnFetchedTip(clone, made, at)
    ensures pushed ==> clone.tracking.Some? && clone.tracking.value.target == clone.head
    ensures clone.OnlySteps(|old(clone.labels)|, {ForkProtocol.OtherWriters, LeasedPush})
    ensures |old(clone.labels)| < |clone.labels| && clone.labels[|old(clone.labels)|] == ForkProtocol.OtherWriters
  {
    var again := clone.Push();
    pushed := again == Pushed;
  }

  /** The undo, with HEAD still at the commit of this call. */
  method RevertMade(clone: Clone, made: Id) returns (ghost undone: Option<Id>)
    requires clone.Valid() && clone.head == made < |clone.odb| && clone.odb[made].parents != []
    modifies clone
    ensures clone.Valid() && clone.Continues() && clone.odb == old(clone.odb) &&
            clone.tracking == old(clone.tracking) && clone.index == old(clone.index)
    ensures clone.head == clone.odb[made].parents[0] && undone == Some(made) &&
            clone.labels == old(clone.labels) + [LocalMove]
  {
    var reverted := RevertCommit(clone, made);
    undone := if reverted then Some(made) else None;
  }
}
