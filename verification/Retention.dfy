/**
  When a workspace is archived, reactivated and finally deleted: the pull request state copied onto
  the row, the owner's updates, proposals, the nightly check and the cleanup of archived workspaces.
 */
module Retention {
  import opened Calendar

  datatype Option<+T> = None | Some(value: T)

  datatype Status = Active | Archived

  datatype PullRequestStatus = Open | Closed | Merged | Unknown

  /** What GitHub reports; `merged` is `merged_at`, `headMissing` a null `head.repo`. */
  datatype PullRequest = PullRequest(state: string, merged: bool, headMissing: bool)

  datatype Row = Row(status: Status, archivedAt: Option<Timestamp>, pullRequest: Option<PullRequestStatus>)

  /** GitHub closed it because the fork was deleted. */
  predicate Detached(pr: PullRequest) {
    pr.headMissing && !pr.merged
  }

  function Observed(pr: PullRequest): PullRequestStatus {
    if pr.merged then Merged else if pr.headMissing then Unknown else if pr.state == "open" then Open else Closed
  }

  /** The nightly check tells an unknown state from a closed one. */
  function Checked(pr: PullRequest): PullRequestStatus {
    if pr.merged || pr.headMissing || pr.state == "open" || pr.state == "closed" then Observed(pr) else Unknown
  }

  predicate Finished(status: PullRequestStatus) {
    status == Merged || status == Closed
  }

  function Archive(row: Row, now: Timestamp): Row {
    if row.status == Archived then row else row.(status := Archived, archivedAt := Some(now))
  }

  function Reactivate(row: Row): Row {
    row.(status := Active, archivedAt := None)
  }

  function AfterObserved(row: Row, pr: PullRequest, now: Timestamp): Row {
    var row' := row.(pullRequest := Some(Observed(pr)));
    if Finished(Observed(pr)) then Archive(row', now) else row'
  }

  function AfterUpdate(row: Row, status: Option<Status>, now: Timestamp): Row {
    match status
    case None => row
    case Some(Archived) => Archive(row, now)
    case Some(Active) => if row.status == Archived then Reactivate(row) else row
  }

  /** A merged pull request refuses every proposal; an archived workspace or closed pull request all but reopening. */
  predicate ProposalRefused(row: Row, open: bool) {
    row.pullRequest == Some(Merged) || (!open && (row.status == Archived || row.pullRequest == Some(Closed)))
  }

  function AfterProposal(row: Row, open: bool, pr: PullRequest, now: Timestamp): Row {
    if ProposalRefused(row, open) then row
    else AfterObserved(if open then Reactivate(row) else row, pr, now)
  }

  function AfterCheck(row: Row, pr: PullRequest, now: Timestamp): Row {
    var status := Checked(pr);
    var row' := row.(pullRequest := Some(status));
    if Finished(status) then Archive(row', now)
    else if status == Open && row.pullRequest != Some(Open) && row.status == Archived then Reactivate(row')
    else row'
  }

  predicate Consistent(row: Row) {
    row.status == Archived <==> row.archivedAt.Some?
  }

  class GitWorkspace {
    const id: string
    var status: Status
    var archivedAt: Option<Timestamp>
    var pullRequest: Option<PullRequestStatus>

    function ToRow(): Row
      reads this
    {
      Row(status, archivedAt, pullRequest)
    }

    constructor (id: string)
      ensures this.id == id && ToRow() == Row(Active, None, None)
    {
      this.id := id;
      status, archivedAt, pullRequest := Active, None, None;
    }

    method ApplyPullRequestState(pr: PullRequest, now: Timestamp) returns (archived: bool)
      modifies this
      ensures ToRow() == AfterObserved(old(ToRow()), pr, now)
      ensures archived <==> old(status) == Active && status == Archived
    {
      if pr.merged {
        pullRequest := Some(Merged);
      } else if pr.headMissing {
        pullRequest := Some(Unknown);
        return false;
      } else if pr.state == "open" {
        pullRequest := Some(Open);
      } else {
        pullRequest := Some(Closed);
      }
      if (pullRequest == Some(Merged) || pullRequest == Some(Closed)) && status != Archived {
        archivedAt := Some(now);
        status := Archived;
        return true;
      }
      return false;
    }

    method UpdateStatus(newStatus: Option<Status>, now: Timestamp)
      modifies this
      ensures ToRow() == AfterUpdate(old(ToRow()), newStatus, now)
    {
      if newStatus == Some(Archived) && status != Archived {
        archivedAt := Some(now);
      }
      if newStatus == Some(Active) && status == Archived {
        archivedAt := None;
      }
      if newStatus.Some? {
        status := newStatus.value;
      }
    }

    /** The part of a proposal that decides on the row, once GitHub answered with the pull request. */
    method Propose(open: bool, pr: PullRequest, now: Timestamp)
        returns (refused: bool, reactivated: bool, archived: bool)
      modifies this
      ensures refused <==>
              old(pullRequest) == Some(Merged) ||
              (!open && (old(status) == Archived || old(pullRequest) == Some(Closed)))
      ensures refused ==> ToRow() == old(ToRow())
      ensures ToRow() == AfterProposal(old(ToRow()), open, pr, now)
      ensures !refused ==> (reactivated <==> open && old(status) == Archived)
      ensures !refused ==> (archived <==> Finished(Observed(pr)) && (open || old(status) == Active))
    {
      refused, reactivated, archived := false, false, false;
      if pullRequest == Some(Merged) {
        refused := true;
        return;
      }
      if !open {
        if status == Archived || pullRequest == Some(Closed) {
          refused := true;
          return;
        }
      }
      if open {
        reactivated := status == Archived;
        archivedAt := None;
        status := Active;
      }
      archived := ApplyPullRequestState(pr, now);
    }

    /** One workspace of the nightly check. */
    method CheckPullRequest(pr: PullRequest, now: Timestamp) returns (changed: bool)
      modifies this
      ensures ToRow() == AfterCheck(old(ToRow()), pr, now)
      ensures changed <==> ToRow() != old(ToRow())
    {
      var newStatus: PullRequestStatus;
      if pr.merged {
        newStatus := Merged;
      } else if pr.headMissing {
        newStatus := Unknown;
      } else if pr.state == "open" {
        newStatus := Open;
      } else if pr.state == "closed" {
        newStatus := Closed;
      } else {
        newStatus := Unknown;
      }
      var statusChanged := pullRequest != Some(newStatus);
      changed := false;
      if statusChanged {
        pullRequest := Some(newStatus);
        changed := true;
      }
      if newStatus == Merged || newStatus == Closed {
        if status != Archived {
          status := Archived;
          archivedAt := Some(now);
          changed := true;
        }
      } else if newStatus == Open && statusChanged {
        if status == Archived {
          status := Active;
          archivedAt := None;
          changed := true;
        }
      }
    }
  }

  // --- Whole histories of a row ---

  datatype What =
    | Observe(pr: PullRequest)
    | Update(status: Option<Status>)
    | Propose(open: bool, pr: PullRequest)
    | Check(pr: PullRequest)

  datatype Event = Event(what: What, at: Timestamp)

  function Step(row: Row, e: Event): Row {
    match e.what
    case Observe(pr) => AfterObserved(row, pr, e.at)
    case Update(status) => AfterUpdate(row, status, e.at)
    case Propose(open, pr) => AfterProposal(row, open, pr, e.at)
    case Check(pr) => AfterCheck(row, pr, e.at)
  }

  function After(row: Row, events: seq<Event>): Row {
    if events == [] then row else Step(After(row, events[..|events| - 1]), events[|events| - 1])
  }

  const NEW_ROW := Row(Active, None, None)

  /** In every reachable state a workspace is archived exactly when it has an archival date. */
  lemma {:induction false} ArchivedIffDated(row: Row, events: seq<Event>)
    requires Consistent(row)
    ensures Consistent(After(row, events))
    decreases |events|
  {
    if events != [] {
      ArchivedIffDated(row, events[..|events| - 1]);
    }
  }

  /**
    Whatever its history, an archived workspace has been archived, with the same date, since the event that set the
    date.
   */
  lemma {:induction false} ArchivedSince(events: seq<Event>) returns (k: nat)
    requires After(NEW_ROW, events).status == Archived
    ensures k < |events|
    ensures forall j :: k < j <= |events| ==>
              After(NEW_ROW, events[..j]).status == Archived &&
              After(NEW_ROW, events[..j]).archivedAt == Some(events[k].at)
    decreases |events|
  {
    var n := |events| - 1;
    var before := After(NEW_ROW, events[..n]);
    ArchivedIffDated(NEW_ROW, events[..n]);
    ArchivedIffDated(NEW_ROW, events);
    assert events[..|events|] == events;
    if before.archivedAt == After(NEW_ROW, events).archivedAt {
      k := ArchivedSince(events[..n]);
      assert forall j :: 0 <= j <= n ==> events[..n][..j] == events[..j];
      assert events[..n][..n] == events[..n];
    } else {
      k := n;
    }
  }

  /**
    In GitHub's own terms: the proposal was merged, or closed with its fork still there. Only the nightly
    check minds a state that is neither "open" nor "closed".
   */
  predicate Decided(e: Event)
    requires PullRequestOf(e).Some?
  {
    var pr := PullRequestOf(e).value;
    pr.merged || (!pr.headMissing && if e.what.Check? then pr.state == "closed" else pr.state != "open")
  }

  /**
    What archives an active workspace: its owner, or a decided pull request, unless the proposal that shows it is
    refused.
   */
  lemma ArchivesIff(row: Row, e: Event)
    requires row.status == Active
    ensures Step(row, e).status == Archived <==>
              if e.what.Update? then e.what.status == Some(Archived)
              else Decided(e) &&
                   (e.what.Propose? ==>
                       row.pullRequest != Some(Merged) && (e.what.open || row.pullRequest != Some(Closed)))
    ensures Step(row, e).status == Archived ==> Step(row, e).archivedAt == Some(e.at)
  {
  }

  /**
    What reactivates an archived workspace: its owner; reopening an unmerged proposal that GitHub does not
    show as decided; or a nightly check that finds the pull request open and knew it otherwise.
   */
  lemma ReactivatesIff(row: Row, e: Event)
    requires row.status == Archived
    ensures Step(row, e).status == Active <==>
              match e.what
              case Observe(_) => false
              case Update(status) => status == Some(Active)
              case Propose(open, _) => open && row.pullRequest != Some(Merged) && !Decided(e)
              case Check(pr) => pr.state == "open" && !pr.merged && !pr.headMissing && row.pullRequest != Some(Open)
    ensures Step(row, e).status == Archived ==>
              Step(row, e).archivedAt ==
              if e.what.Propose? && e.what.open && row.pullRequest != Some(Merged) then Some(e.at) else row.archivedAt
  {
  }

  /** The pull request status that is recorded, in GitHub's own terms; a refused proposal records nothing. */
  lemma RecordedStatus(row: Row, e: Event)
    requires PullRequestOf(e).Some?
    ensures var pr := PullRequestOf(e).value;
            var refused := e.what.Propose? &&
                           (row.pullRequest == Some(Merged) ||
                            (!e.what.open && (row.status == Archived || row.pullRequest == Some(Closed))));
            Step(row, e).pullRequest ==
              if refused then row.pullRequest
              else Some(if pr.merged then Merged
                        else if pr.headMissing then Unknown
                        else if pr.state == "open" then Open
                        else if e.what.Check? && pr.state != "closed" then Unknown
                        else Closed)
  {
  }

  function PullRequestOf(e: Event): Option<PullRequest> {
    match e.what
    case Observe(pr) => Some(pr)
    case Update(_) => None
    case Propose(_, pr) => Some(pr)
    case Check(pr) => Some(pr)
  }

  /**
    Over any history in which a detached pull request is all GitHub shows, a workspace only gets archived by its
    owner.
   */
  lemma {:induction false} DetachedNeverArchives(row: Row, events: seq<Event>)
    requires Consistent(row)
    requires forall e :: e in events ==>
               if PullRequestOf(e).Some? then Detached(PullRequestOf(e).value) else e.what.status != Some(Archived)
    ensures After(row, events).status == Archived ==>
              row.status == Archived && After(row, events).archivedAt == row.archivedAt
    decreases |events|
  {
    if events != [] {
      var n := |events| - 1;
      DetachedNeverArchives(row, events[..n]);
      assert events[n] in events;
    }
  }

  /** A workspace archived by hand while its pull request was open stays so over any number of nightly checks. */
  lemma {:induction false} ArchivedByHandStays(row: Row, events: seq<Event>)
    requires row.status == Archived && row.pullRequest == Some(Open)
    requires forall e :: e in events ==> e.what.Check? && Checked(e.what.pr) == Open
    ensures After(row, events) == row
    decreases |events|
  {
    if events != [] {
      ArchivedByHandStays(row, events[..|events| - 1]);
      assert events[|events| - 1] in events;
    }
  }

  // --- The cleanup ---

  predicate Selected(row: Row, now: Timestamp) {
    row.status == Archived && row.archivedAt.Some? && Due(row.archivedAt.value, now)
  }

  /**
    Nothing is deleted before it was archived, without interruption, for a whole month: the event that
    archived it lies a month back, and its deletion date has come.
   */
  lemma DeletedOnlyAfterAMonthArchived(events: seq<Event>, now: Timestamp) returns (k: nat)
    requires (forall e :: e in events ==> Valid(e.at)) && Valid(now) && Selected(After(NEW_ROW, events), now)
    ensures k < |events| && AtOrBefore(DeletionAt(events[k].at), now)
    ensures forall j :: k < j <= |events| ==>
              After(NEW_ROW, events[..j]).status == Archived &&
              After(NEW_ROW, events[..j]).archivedAt == Some(events[k].at)
  {
    k := ArchivedSince(events);
    assert events[..|events|] == events;
    NeverEarly(events[k].at, now);
  }

  datatype Stored = Stored(id: string, row: Row)

  function Remaining(stored: seq<Stored>, now: Timestamp, deletable: set<string>): seq<Stored> {
    if stored == [] then []
    else (if Selected(stored[0].row, now) && stored[0].id in deletable then []
        else [stored[0]]) + Remaining(stored[1..], now, deletable)
  }

  function Query(stored: seq<Stored>, now: Timestamp): seq<Stored> {
    if stored == [] then [] else (if Selected(stored[0].row, now) then [stored[0]] else []) + Query(stored[1..], now)
  }

  function WithoutId(stored: seq<Stored>, id: string): seq<Stored> {
    if stored == [] then [] else if stored[0].id == id then stored[1..] else [stored[0]] + WithoutId(stored[1..], id)
  }

  predicate UniqueIds(stored: seq<Stored>) {
    forall i, j :: 0 <= i < j < |stored| ==> stored[i].id != stored[j].id
  }

  lemma {:induction false} QueryMembers(stored: seq<Stored>, now: Timestamp)
    ensures forall w :: w in Query(stored, now) <==> w in stored && Selected(w.row, now)
    decreases |stored|
  {
    if stored != [] {
      QueryMembers(stored[1..], now);
    }
  }

  lemma {:induction false} RemainingMembers(stored: seq<Stored>, now: Timestamp, deletable: set<string>)
    ensures forall w :: w in Remaining(stored, now, deletable) <==>
              w in stored && !(Selected(w.row, now) && w.id in deletable)
    decreases |stored|
  {
    if stored != [] {
      RemainingMembers(stored[1..], now, deletable);
    }
  }

  /**
    Every workspace that a cleanup can lock and delete is gone at the latest three days after its deletion date, and
    none before that date.
   */
  lemma CleanupIsTimely(stored: seq<Stored>, now: Timestamp, deletable: set<string>, w: Stored)
    requires Valid(now) && w in stored && w.row.status == Archived && w.row.archivedAt.Some? &&
             Valid(w.row.archivedAt.value)
    ensures w !in Remaining(stored, now, deletable) ==> AtOrBefore(DeletionAt(w.row.archivedAt.value), now)
    ensures w.id in deletable && AtOrBefore(PlusDays(DeletionAt(w.row.archivedAt.value), 3), now) ==>
              w !in Remaining(stored, now, deletable)
  {
    RemainingMembers(stored, now, deletable);
    if w !in Remaining(stored, now, deletable) {
      NeverEarly(w.row.archivedAt.value, now);
    }
    if AtOrBefore(PlusDays(DeletionAt(w.row.archivedAt.value), 3), now) {
      AtMostThreeDaysLate(w.row.archivedAt.value, now);
    }
  }

  class Database {
    var stored: seq<Stored>

    constructor (rows: seq<Stored>)
      ensures stored == rows
    {
      stored := rows;
    }

    /** `deletable`: the workspaces whose file lock is free in time and whose files and row can be removed. */
    method CleanupArchivedWorkspaces(now: Timestamp, deletable: set<string>, dryRun: bool)
        returns (deleted: nat, errors: nat)
      requires UniqueIds(stored)
      modifies this
      ensures stored == if dryRun then old(stored) else Remaining(old(stored), now, deletable)
      ensures deleted == |old(stored)| - |stored|
      ensures !dryRun ==> deleted + errors == |Query(old(stored), now)|
    {
      var workspaces := Query(stored, now);
      deleted, errors := 0, 0;
      ghost var before := stored;
      QueryIds(stored, now);
      QueryMembers(stored, now);
      RemainingNone(stored, now);
      assert Ids(workspaces[..0]) * deletable == {};
      for i := 0 to |workspaces|
        invariant stored == if dryRun then before else Remaining(before, now, Ids(workspaces[..i]) * deletable)
        invariant deleted == |before| - |stored|
        invariant !dryRun ==> deleted + errors == i
      {
        DoneGrows(workspaces, i, deletable);
        if !dryRun {
          if workspaces[i].id in deletable {
            DeleteWorkspace(workspaces[i], now, before, Ids(workspaces[..i]) * deletable);
            deleted := deleted + 1;
          } else {
            errors := errors + 1;
          }
        }
      }
      if !dryRun {
        assert workspaces[..|workspaces|] == workspaces;
        SameDeletable(before, now, Ids(workspaces) * deletable, deletable);
      }
    }

    method DeleteWorkspace(w: Stored, now: Timestamp, ghost before: seq<Stored>, ghost done: set<string>)
      requires UniqueIds(before) && w in before && Selected(w.row, now) && w.id !in done
      requires stored == Remaining(before, now, done)
      modifies this
      ensures stored == Remaining(before, now, done + {w.id}) && |stored| == old(|stored|) - 1
    {
      DeleteOne(before, now, done, w);
      stored := WithoutId(stored, w.id);
    }
  }

  function Ids(stored: seq<Stored>): set<string> {
    set w | w in stored :: w.id
  }

  lemma DoneGrows(stored: seq<Stored>, i: nat, deletable: set<string>)
    requires i < |stored| && UniqueIds(stored)
    ensures stored[i].id !in Ids(stored[..i])
    ensures stored[i].id in deletable ==>
              Ids(stored[..i + 1]) * deletable == Ids(stored[..i]) * deletable + {stored[i].id}
    ensures stored[i].id !in deletable ==> Ids(stored[..i + 1]) * deletable == Ids(stored[..i]) * deletable
  {
    assert stored[..i + 1] == stored[..i] + [stored[i]];
    assert Ids(stored[..i + 1]) == Ids(stored[..i]) + {stored[i].id};
  }

  lemma {:induction false} RemainingNone(stored: seq<Stored>, now: Timestamp)
    ensures Remaining(stored, now, {}) == stored
    decreases |stored|
  {
    if stored != [] {
      RemainingNone(stored[1..], now);
    }
  }

  lemma {:induction false} QueryIds(stored: seq<Stored>, now: Timestamp)
    requires UniqueIds(stored)
    ensures UniqueIds(Query(stored, now))
    decreases |stored|
  {
    if stored != [] {
      QueryIds(stored[1..], now);
      QueryMembers(stored[1..], now);
      assert forall w :: w in stored[1..] ==> w.id != stored[0].id;
      assert forall w :: w in Query(stored[1..], now) ==> w.id != stored[0].id;
    }
  }

  lemma {:induction false} DeleteOne(stored: seq<Stored>, now: Timestamp, done: set<string>, w: Stored)
    requires UniqueIds(stored) && w in stored && Selected(w.row, now) && w.id !in done
    ensures WithoutId(Remaining(stored, now, done), w.id) == Remaining(stored, now, done + {w.id})
    ensures |Remaining(stored, now, done + {w.id})| == |Remaining(stored, now, done)| - 1
    decreases |stored|
  {
    var rest := stored[1..];
    if stored[0] == w {
      assert forall x :: x in rest ==> x.id != w.id;
      NotInRest(rest, now, done, w.id);
    } else {
      assert w in rest && stored[0].id != w.id;
      DeleteOne(rest, now, done, w);
      var tail := Remaining(rest, now, done);
      assert ([stored[0]] + tail)[1..] == tail && [] + tail == tail;
      assert [] + Remaining(rest, now, done + {w.id}) == Remaining(rest, now, done + {w.id});
    }
  }

  lemma {:induction false} NotInRest(stored: seq<Stored>, now: Timestamp, done: set<string>, id: string)
    requires forall x :: x in stored ==> x.id != id
    ensures Remaining(stored, now, done + {id}) == Remaining(stored, now, done)
    decreases |stored|
  {
    if stored != [] {
      NotInRest(stored[1..], now, done, id);
    }
  }

  lemma {:induction false} SameDeletable(stored: seq<Stored>, now: Timestamp, a: set<string>, b: set<string>)
    requires forall w :: w in stored && Selected(w.row, now) ==> (w.id in a <==> w.id in b)
    ensures Remaining(stored, now, a) == Remaining(stored, now, b)
    decreases |stored|
  {
    if stored != [] {
      SameDeletable(stored[1..], now, a, b);
    }
  }
}
