/**
  Who may open a workspace: the collaborator and share tables, and the three places that read them,
  `resolve_role`, `workspace_members` and `get_user_workspaces`.

  A request's changes are staged in its session and committed at once; queries do not see what the
  same request staged (`autoflush=False`). The database refuses a second row for a workspace and
  account, and references to rows that do not exist.
 */
module Sharing {
  datatype Option<+T> = None | Some(value: T)

  /** The external id is GitHub's account id for GitHub users; no two users share one. */
  datatype User = User(externalId: string, github: bool)

  datatype Workspace = Workspace(owner: string, archived: bool)

  datatype Collaborator = Collaborator(workspace: string, githubId: string, account: Option<string>, mode: string,
      accepted: bool, share: Option<string>)

  datatype Share = Share(workspace: string, mode: string, expiresAt: Option<int>)

  datatype Role = Owner | Mode(mode: string)

  const READONLY := "readonly"

  type RowId = nat

  datatype Tables = Tables(users: map<string, User>, workspaces: map<string, Workspace>,
      rows: map<RowId, Collaborator>, shares: map<string, Share>, next: RowId)

  // --- What every run keeps ---

  ghost predicate UsersOk(t: Tables) {
    "" !in t.users &&
    (forall a, b :: a in t.users && b in t.users && t.users[a].externalId == t.users[b].externalId ==> a == b) &&
    (forall w :: w in t.workspaces ==> t.workspaces[w].owner in t.users) &&
    (forall s :: s in t.shares ==> t.shares[s].workspace in t.workspaces)
  }

  /** Never the owner's own row; accepted rows are bound to the user with that account; share references are valid. */
  ghost predicate RowOk(t: Tables, r: Collaborator) {
    r.workspace in t.workspaces && t.workspaces[r.workspace].owner in t.users &&
    r.githubId != t.users[t.workspaces[r.workspace].owner].externalId &&
    (if r.accepted
        then r.account.Some? && r.account.value in t.users && t.users[r.account.value].externalId == r.githubId
     else r.account == None) &&
    (r.share.Some? ==> r.share.value in t.shares && t.shares[r.share.value].workspace == r.workspace)
  }

  predicate SameKey(a: Collaborator, b: Collaborator) {
    a.workspace == b.workspace && a.githubId == b.githubId
  }

  ghost predicate UniqueRows(rows: map<RowId, Collaborator>) {
    forall i, j :: i in rows && j in rows && SameKey(rows[i], rows[j]) ==> i == j
  }

  ghost predicate Valid(t: Tables) {
    UsersOk(t) && UniqueRows(t.rows) && (forall i :: i in t.rows ==> i < t.next) &&
    forall i :: i in t.rows ==> RowOk(t, t.rows[i])
  }

  // --- Roles ---

  predicate Grants(r: Collaborator, w: string, u: string) {
    r.workspace == w && r.accepted && r.account == Some(u)
  }

  function RoleOf(workspace: Workspace, r: Collaborator): Role {
    if workspace.archived then Mode(READONLY) else Mode(r.mode)
  }

  /** A role that `resolve_role` may return: with several rows the query's first one would decide. */
  ghost predicate HasRole(t: Tables, w: string, u: string, role: Role) {
    w in t.workspaces && u != "" &&
    if t.workspaces[w].owner == u then role == Owner
    else exists i :: i in t.rows && Grants(t.rows[i], w, u) && role == RoleOf(t.workspaces[w], t.rows[i])
  }

  ghost predicate CanOpen(t: Tables, w: string, u: string) {
    exists role :: HasRole(t, w, u, role)
  }

  lemma OneRowPerAccount(t: Tables, i: RowId, j: RowId, w: string, u: string)
    requires Valid(t) && i in t.rows && j in t.rows && Grants(t.rows[i], w, u) && Grants(t.rows[j], w, u)
    ensures i == j
  {
    assert RowOk(t, t.rows[i]) && RowOk(t, t.rows[j]);
    assert SameKey(t.rows[i], t.rows[j]);
  }

  /** The role is unambiguous, whatever order the rows come in. */
  lemma RoleIsUnique(t: Tables, w: string, u: string, a: Role, b: Role)
    requires Valid(t) && HasRole(t, w, u, a) && HasRole(t, w, u, b)
    ensures a == b
  {
    if t.workspaces[w].owner != u {
      var i :| i in t.rows && Grants(t.rows[i], w, u) && a == RoleOf(t.workspaces[w], t.rows[i]);
      var j :| j in t.rows && Grants(t.rows[j], w, u) && b == RoleOf(t.workspaces[w], t.rows[j]);
      OneRowPerAccount(t, i, j, w, u);
    }
  }

  /** The owner never has a row, so nobody has access twice. */
  lemma OwnerHasNoRow(t: Tables, i: RowId, w: string)
    requires Valid(t) && i in t.rows && w in t.workspaces
    ensures !Grants(t.rows[i], w, t.workspaces[w].owner)
  {
    assert RowOk(t, t.rows[i]);
  }

  predicate Distinct<T(==)>(s: seq<T>) {
    forall i, j :: 0 <= i < j < |s| ==> s[i] != s[j]
  }

  predicate DistinctWorkspaces(list: seq<(string, Role)>) {
    forall i, j :: 0 <= i < j < |list| ==> list[i].0 != list[j].0
  }

  // --- What each operation does to the tables ---

  datatype Outcome = Ok | Refused | Conflict | NotFound

  function Accept(r: Collaborator, user: string): Collaborator {
    r.(account := Some(user), accepted := true)
  }

  predicate IsAccount(t: Tables, u: string, githubId: string) {
    u in t.users && t.users[u].github && t.users[u].externalId == githubId
  }

  /** The GitHub user with this account id; at most one has it. */
  ghost function AccountOf(t: Tables, githubId: string): Option<string> {
    if exists u :: IsAccount(t, u, githubId) then Some(var u :| IsAccount(t, u, githubId); u) else None
  }

  predicate IsRow(t: Tables, i: RowId, w: string, githubId: string) {
    i in t.rows && t.rows[i].workspace == w && t.rows[i].githubId == githubId
  }

  predicate HasRow(t: Tables, w: string, githubId: string) {
    exists i :: i in t.rows && t.rows[i].workspace == w && t.rows[i].githubId == githubId
  }

  /** The invited accounts that have no row yet. */
  function NewIds(t: Tables, w: string, ids: seq<string>): seq<string> {
    if ids == [] then []
    else NewIds(t, w, ids[..|ids| - 1]) + if HasRow(t, w, ids[|ids| - 1]) then [] else [ids[|ids| - 1]]
  }

  /** An invited account's row after an invitation to it. */
  function Reinvited(r: Collaborator, mode: string, account: Option<string>): Collaborator {
    if account.Some? then Accept(r.(mode := mode), account.value) else r.(mode := mode)
  }

  function NewInvite(w: string, githubId: string, mode: string, account: Option<string>): Collaborator {
    Collaborator(w, githubId, account, mode, account.Some?, None)
  }

  ghost function Restaged(t: Tables, w: string, mode: string, ids: seq<string>): map<RowId, Collaborator> {
    map i | i in t.rows ::
      if t.rows[i].workspace == w && t.rows[i].githubId in ids
          then Reinvited(t.rows[i], mode, AccountOf(t, t.rows[i].githubId)) else t.rows[i]
  }

  ghost function Invites(t: Tables, w: string, mode: string, ids: seq<string>): seq<Collaborator> {
    var unknown := NewIds(t, w, ids);
    seq(|unknown|, k requires 0 <= k < |unknown| => NewInvite(w, unknown[k], mode, AccountOf(t, unknown[k])))
  }

  function Added(added: seq<Collaborator>, next: RowId, i: RowId): Collaborator
    requires next <= i < next + |added|
  {
    added[i - next]
  }

  /** The commit: new rows get ids of their own. */
  function Inserted(rows: map<RowId, Collaborator>, next: RowId, added: seq<Collaborator>): map<RowId, Collaborator> {
    rows + map i | next <= i < next + |added| :: Added(added, next, i)
  }

  /** `_upsert_collaborators`: all of the invitations or none. */
  ghost function UpsertOutcome(t: Tables, w: string, ids: seq<string>): Outcome
    requires UsersOk(t)
  {
    if w !in t.workspaces then Conflict
    else if t.users[t.workspaces[w].owner].externalId in ids then Refused
    else if !Distinct(NewIds(t, w, ids)) then Conflict
    else Ok
  }

  ghost function AfterUpsert(t: Tables, w: string, mode: string, ids: seq<string>): Tables
    requires UsersOk(t)
  {
    if UpsertOutcome(t, w, ids) != Ok then t
    else t.(rows := Inserted(Restaged(t, w, mode, ids), t.next, Invites(t, w, mode, ids)),
        next := t.next + |NewIds(t, w, ids)|)
  }

  function Activated(r: Collaborator, user: string, externalId: string): Collaborator {
    if r.githubId == externalId && !r.accepted then Accept(r, user) else r
  }

  /** `activate_pending_collaborators` */
  function AfterActivation(t: Tables, u: string): Tables
    requires u in t.users
  {
    if !t.users[u].github then t
    else t.(rows := map i | i in t.rows :: Activated(t.rows[i], u, t.users[u].externalId))
  }

  predicate Live(t: Tables, s: string, now: int) {
    s in t.shares && (t.shares[s].expiresAt.Some? ==> now < t.shares[s].expiresAt.value)
  }

  /** `_accept_share` with the row found for the account, if any. */
  function AfterAccept(t: Tables, s: string, u: string, row: Option<RowId>): Tables
    requires s in t.shares && u in t.users && (row.Some? ==> row.value in t.rows)
  {
    if row == None then
      var share := t.shares[s];
      var added := Collaborator(share.workspace, t.users[u].externalId, Some(u), share.mode, true, Some(s));
      t.(rows := t.rows[t.next := added], next := t.next + 1)
    else if t.rows[row.value].accepted then t
    else t.(rows := t.rows[row.value := Accept(t.rows[row.value], u).(share := Some(s))])
  }

  function AfterRevoke(t: Tables, i: RowId): Tables {
    t.(rows := t.rows - {i})
  }

  function Detach(r: Collaborator, s: string): Collaborator {
    if r.share == Some(s) then r.(share := None) else r
  }

  function AfterDeleteShare(t: Tables, s: string): Tables {
    t.(rows := map i | i in t.rows :: Detach(t.rows[i], s), shares := t.shares - {s})
  }

  /** The collaborators and shares go with their workspace. */
  function AfterDeleteWorkspace(t: Tables, w: string): Tables {
    t.(workspaces := t.workspaces - {w},
       rows := map i | i in t.rows && t.rows[i].workspace != w :: t.rows[i],
       shares := map s | s in t.shares && t.shares[s].workspace != w :: t.shares[s])
  }

  // --- and that each keeps the tables valid ---

  lemma AccountIsUnique(t: Tables, u: string, githubId: string)
    requires UsersOk(t) && IsAccount(t, u, githubId)
    ensures AccountOf(t, githubId) == Some(u)
  {
  }

  lemma {:induction false} NewIdsMembers(t: Tables, w: string, ids: seq<string>, id: string)
    ensures id in NewIds(t, w, ids) <==> id in ids && !HasRow(t, w, id)
    decreases |ids|
  {
    if ids != [] {
      NewIdsMembers(t, w, ids[..|ids| - 1], id);
      assert ids == ids[..|ids| - 1] + [ids[|ids| - 1]];
    }
  }

  /** Only accounts that have a row already are invited twice. */
  ghost predicate RepeatsKnown(t: Tables, w: string, ids: seq<string>) {
    forall i, j :: 0 <= i < j < |ids| && ids[i] == ids[j] ==>
      exists r :: r in t.rows && t.rows[r].workspace == w && t.rows[r].githubId == ids[i]
  }

  lemma RepeatsKnownAppended(t: Tables, w: string, ids: seq<string>, id: string)
    ensures RepeatsKnown(t, w, ids + [id]) <==> RepeatsKnown(t, w, ids) && (id in ids ==> HasRow(t, w, id))
  {
    var more := ids + [id];
    assert forall i :: 0 <= i < |ids| ==> more[i] == ids[i];
    if RepeatsKnown(t, w, more) {
      assert forall i, j :: 0 <= i < j < |ids| && ids[i] == ids[j] ==> more[i] == more[j] && HasRow(t, w, more[i]);
      if k :| 0 <= k < |ids| && ids[k] == id {
        assert more[k] == more[|ids|];
      }
    }
  }

  lemma {:induction false} NewIdsDistinct(t: Tables, w: string, ids: seq<string>)
    ensures Distinct(NewIds(t, w, ids)) <==> RepeatsKnown(t, w, ids)
    decreases |ids|
  {
    if ids != [] {
      var n := |ids| - 1;
      NewIdsDistinct(t, w, ids[..n]);
      NewIdsMembers(t, w, ids[..n], ids[n]);
      AppendedIsDistinct(NewIds(t, w, ids[..n]), ids[n]);
      RepeatsKnownAppended(t, w, ids[..n], ids[n]);
      assert ids == ids[..n] + [ids[n]];
      assert NewIds(t, w, ids[..n]) + [] == NewIds(t, w, ids[..n]);
    }
  }

  /** When invitations are refused, as the owner is among them, when they fail, and when all of them are made. */
  lemma UpsertOutcomeIff(t: Tables, w: string, ids: seq<string>)
    requires UsersOk(t)
    ensures UpsertOutcome(t, w, ids) == Refused <==>
              w in t.workspaces && t.users[t.workspaces[w].owner].externalId in ids
    ensures UpsertOutcome(t, w, ids) == Ok <==>
              w in t.workspaces && t.users[t.workspaces[w].owner].externalId !in ids && RepeatsKnown(t, w, ids)
  {
    NewIdsDistinct(t, w, ids);
  }

  lemma AppendedIsDistinct<T>(s: seq<T>, x: T)
    ensures Distinct(s + [x]) <==> Distinct(s) && x !in s
  {
    if Distinct(s + [x]) {
      forall i, j | 0 <= i < j < |s| ensures s[i] != s[j] {
        assert (s + [x])[i] == s[i] && (s + [x])[j] == s[j];
      }
      forall i | 0 <= i < |s| ensures s[i] != x {
        assert (s + [x])[i] == s[i] && (s + [x])[|s|] == x;
      }
    }
  }

  lemma UpsertRows(t: Tables, w: string, mode: string, ids: seq<string>, i: RowId)
    requires Valid(t) && UpsertOutcome(t, w, ids) == Ok && i in AfterUpsert(t, w, mode, ids).rows
    ensures var t' := AfterUpsert(t, w, mode, ids);
            if i in t.rows then
              t'.rows[i] == if t.rows[i].workspace == w && t.rows[i].githubId in ids
                            then Reinvited(t.rows[i], mode, AccountOf(t, t.rows[i].githubId)) else t.rows[i]
            else
              t.next <= i < t'.next &&
              var id := NewIds(t, w, ids)[i - t.next];
              id in ids && !HasRow(t, w, id) && t'.rows[i] == NewInvite(w, id, mode, AccountOf(t, id))
  {
    if i !in t.rows {
      NewIdsMembers(t, w, ids, NewIds(t, w, ids)[i - t.next]);
    }
  }

  /** Rows are judged by the other tables. */
  lemma SameTablesSameRowOk(t: Tables, t': Tables, r: Collaborator)
    requires RowOk(t, r) && t'.users == t.users && t'.workspaces == t.workspaces && t'.shares == t.shares
    ensures RowOk(t', r)
  {
  }

  lemma ReinvitedRowOk(t: Tables, r: Collaborator, mode: string)
    requires UsersOk(t) && RowOk(t, r)
    ensures RowOk(t, Reinvited(r, mode, AccountOf(t, r.githubId)))
  {
  }

  lemma NewInviteOk(t: Tables, w: string, githubId: string, mode: string)
    requires UsersOk(t) && w in t.workspaces && t.users[t.workspaces[w].owner].externalId != githubId
    ensures RowOk(t, NewInvite(w, githubId, mode, AccountOf(t, githubId)))
  {
  }

  lemma UpsertKeepsRowsOk(t: Tables, w: string, mode: string, ids: seq<string>, i: RowId)
    requires Valid(t) && UpsertOutcome(t, w, ids) == Ok && i in AfterUpsert(t, w, mode, ids).rows
    ensures RowOk(AfterUpsert(t, w, mode, ids), AfterUpsert(t, w, mode, ids).rows[i])
  {
    var t' := AfterUpsert(t, w, mode, ids);
    UpsertRows(t, w, mode, ids, i);
    if i in t.rows {
      assert RowOk(t, t.rows[i]);
      ReinvitedRowOk(t, t.rows[i], mode);
    } else {
      NewInviteOk(t, w, NewIds(t, w, ids)[i - t.next], mode);
    }
    SameTablesSameRowOk(t, t', t'.rows[i]);
  }

  lemma UpsertKeys(t: Tables, w: string, mode: string, ids: seq<string>, i: RowId)
    requires Valid(t) && UpsertOutcome(t, w, ids) == Ok && i in AfterUpsert(t, w, mode, ids).rows
    ensures var r := AfterUpsert(t, w, mode, ids).rows[i];
            if i in t.rows then
              SameKey(r, t.rows[i])
            else
              t.next <= i < t.next + |NewIds(t, w, ids)| &&
              r.workspace == w && r.githubId == NewIds(t, w, ids)[i - t.next] && !HasRow(t, w, r.githubId)
  {
    UpsertRows(t, w, mode, ids, i);
  }

  lemma UpsertKeepsUnique(t: Tables, w: string, mode: string, ids: seq<string>, i: RowId, j: RowId)
    requires Valid(t) && UpsertOutcome(t, w, ids) == Ok
    requires i in AfterUpsert(t, w, mode, ids).rows && j in AfterUpsert(t, w, mode, ids).rows
    requires SameKey(AfterUpsert(t, w, mode, ids).rows[i], AfterUpsert(t, w, mode, ids).rows[j])
    ensures i == j
  {
    UpsertKeys(t, w, mode, ids, i);
    UpsertKeys(t, w, mode, ids, j);
    assert i in t.rows && j in t.rows ==> SameKey(t.rows[i], t.rows[j]);
  }

  lemma UpsertKeepsValid(t: Tables, w: string, mode: string, ids: seq<string>)
    requires Valid(t)
    ensures Valid(AfterUpsert(t, w, mode, ids))
  {
    var t' := AfterUpsert(t, w, mode, ids);
    if UpsertOutcome(t, w, ids) == Ok {
      forall i | i in t'.rows ensures RowOk(t', t'.rows[i]) && i < t'.next {
        UpsertKeepsRowsOk(t, w, mode, ids, i);
        UpsertRows(t, w, mode, ids, i);
      }
      forall i, j | i in t'.rows && j in t'.rows && SameKey(t'.rows[i], t'.rows[j]) ensures i == j {
        UpsertKeepsUnique(t, w, mode, ids, i, j);
      }
    }
  }

  /** Changing rows but not their keys, or dropping some, keeps them unique. */
  lemma KeysKeepUnique(rows: map<RowId, Collaborator>, rows': map<RowId, Collaborator>)
    requires UniqueRows(rows)
    requires forall i :: i in rows' ==> i in rows && SameKey(rows'[i], rows[i])
    ensures UniqueRows(rows')
  {
  }

  lemma ActivatedRowOk(t: Tables, u: string, r: Collaborator)
    requires UsersOk(t) && RowOk(t, r) && u in t.users
    ensures RowOk(t, Activated(r, u, t.users[u].externalId))
  {
  }

  lemma ActivationKeepsValid(t: Tables, u: string)
    requires Valid(t) && u in t.users
    ensures Valid(AfterActivation(t, u))
  {
    var t' := AfterActivation(t, u);
    forall i | i in t'.rows ensures RowOk(t', t'.rows[i]) {
      ActivatedRowOk(t, u, t.rows[i]);
      SameTablesSameRowOk(t, t', t'.rows[i]);
    }
    KeysKeepUnique(t.rows, t'.rows);
  }

  lemma AcceptedRowOk(t: Tables, s: string, u: string, row: Option<RowId>, i: RowId)
    requires Valid(t) && CanAccept(t, s, u, row) && i in AfterAccept(t, s, u, row).rows
    ensures RowOk(t, AfterAccept(t, s, u, row).rows[i]) && i < AfterAccept(t, s, u, row).next
    ensures i in t.rows ==> SameKey(AfterAccept(t, s, u, row).rows[i], t.rows[i])
  {
    assert i in t.rows ==> RowOk(t, t.rows[i]);
  }

  lemma AcceptKeepsUnique(t: Tables, s: string, u: string, row: Option<RowId>)
    requires Valid(t) && CanAccept(t, s, u, row)
    ensures UniqueRows(AfterAccept(t, s, u, row).rows)
  {
    var rows := AfterAccept(t, s, u, row).rows;
    if row.Some? {
      KeysKeepUnique(t.rows, rows);
    } else {
      forall i | i in t.rows ensures i != t.next && !SameKey(rows[i], rows[t.next]) {
      }
    }
  }

  lemma AcceptKeepsValid(t: Tables, s: string, u: string, row: Option<RowId>)
    requires Valid(t) && CanAccept(t, s, u, row)
    ensures Valid(AfterAccept(t, s, u, row))
  {
    var t' := AfterAccept(t, s, u, row);
    forall i | i in t'.rows ensures RowOk(t', t'.rows[i]) && i < t'.next {
      AcceptedRowOk(t, s, u, row, i);
      SameTablesSameRowOk(t, t', t'.rows[i]);
    }
    AcceptKeepsUnique(t, s, u, row);
  }

  lemma DetachedRowOk(t: Tables, s: string, r: Collaborator)
    requires RowOk(t, r)
    ensures RowOk(AfterDeleteShare(t, s), Detach(r, s))
  {
  }

  lemma DeleteShareKeepsValid(t: Tables, s: string)
    requires Valid(t)
    ensures Valid(AfterDeleteShare(t, s))
  {
    var t' := AfterDeleteShare(t, s);
    forall i | i in t'.rows ensures RowOk(t', t'.rows[i]) {
      DetachedRowOk(t, s, t.rows[i]);
    }
    KeysKeepUnique(t.rows, t'.rows);
  }

  lemma DeleteWorkspaceKeepsValid(t: Tables, w: string)
    requires Valid(t)
    ensures Valid(AfterDeleteWorkspace(t, w))
  {
    var t' := AfterDeleteWorkspace(t, w);
    forall i | i in t'.rows ensures RowOk(t', t'.rows[i]) {
      assert RowOk(t, t.rows[i]);
    }
  }

  // --- What the operations mean for the roles ---

  /** The role comes from the one row that grants it. */
  lemma RoleByRow(t: Tables, w: string, u: string, i: RowId, role: Role)
    requires Valid(t) && w in t.workspaces && i in t.rows && Grants(t.rows[i], w, u)
    ensures HasRole(t, w, u, role) <==> role == RoleOf(t.workspaces[w], t.rows[i])
  {
    assert RowOk(t, t.rows[i]);
    OwnerHasNoRow(t, i, w);
    assert HasRole(t, w, u, RoleOf(t.workspaces[w], t.rows[i]));
    if HasRole(t, w, u, role) {
      RoleIsUnique(t, w, u, role, RoleOf(t.workspaces[w], t.rows[i]));
    }
  }

  /** The users an invitation gives access to, or another mode. */
  ghost predicate Invited(t: Tables, w: string, ids: seq<string>, u: string) {
    u in t.users && t.users[u].externalId in ids &&
    (t.users[u].github || exists i :: i in t.rows && Grants(t.rows[i], w, u))
  }

  lemma GrantSurvivesUpsert(t: Tables, w: string, mode: string, ids: seq<string>, v: string, u: string, i: RowId)
    requires Valid(t) && UpsertOutcome(t, w, ids) == Ok && i in t.rows && Grants(t.rows[i], v, u)
    ensures var t' := AfterUpsert(t, w, mode, ids);
            i in t'.rows && Grants(t'.rows[i], v, u) &&
            t'.rows[i].mode == if v == w && Invited(t, w, ids, u) then mode else t.rows[i].mode
  {
    assert RowOk(t, t.rows[i]);
    UpsertRows(t, w, mode, ids, i);
  }

  lemma InvitedGetRow(t: Tables, w: string, mode: string, ids: seq<string>, u: string) returns (i: RowId)
    requires Valid(t) && UpsertOutcome(t, w, ids) == Ok && Invited(t, w, ids, u)
    ensures var t' := AfterUpsert(t, w, mode, ids);
            i in t'.rows && Grants(t'.rows[i], w, u) && t'.rows[i].mode == mode
  {
    var id := t.users[u].externalId;
    if k :| k in t.rows && Grants(t.rows[k], w, u) {
      GrantSurvivesUpsert(t, w, mode, ids, w, u, k);
      i := k;
    } else {
      AccountIsUnique(t, u, id);
      NewIdsMembers(t, w, ids, id);
      if HasRow(t, w, id) {
        i :| i in t.rows && t.rows[i].workspace == w && t.rows[i].githubId == id;
      } else {
        var k :| 0 <= k < |NewIds(t, w, ids)| && NewIds(t, w, ids)[k] == id;
        i := t.next + k;
      }
      UpsertRows(t, w, mode, ids, i);
    }
  }

  lemma OthersGetNoRow(t: Tables, w: string, mode: string, ids: seq<string>, v: string, u: string, i: RowId)
    requires Valid(t) && UpsertOutcome(t, w, ids) == Ok
    requires i in AfterUpsert(t, w, mode, ids).rows && Grants(AfterUpsert(t, w, mode, ids).rows[i], v, u)
    ensures (v == w && Invited(t, w, ids, u)) || (i in t.rows && Grants(t.rows[i], v, u))
  {
    UpsertRows(t, w, mode, ids, i);
  }

  /** After an invitation, each invited user has its mode, and nobody else's role changed, on any workspace. */
  lemma UpsertRoles(t: Tables, w: string, mode: string, ids: seq<string>, v: string, u: string, role: Role)
    requires Valid(t) && UpsertOutcome(t, w, ids) == Ok
    ensures HasRole(AfterUpsert(t, w, mode, ids), v, u, role) <==>
              if v == w && Invited(t, w, ids, u)
              then role == if t.workspaces[w].archived then Mode(READONLY) else Mode(mode)
              else HasRole(t, v, u, role)
  {
    var t' := AfterUpsert(t, w, mode, ids);
    UpsertKeepsValid(t, w, mode, ids);
    if v == w && Invited(t, w, ids, u) {
      var i := InvitedGetRow(t, w, mode, ids, u);
      RoleByRow(t', w, u, i, role);
    } else if i :| i in t.rows && Grants(t.rows[i], v, u) {
      GrantSurvivesUpsert(t, w, mode, ids, v, u, i);
      assert RowOk(t, t.rows[i]);
      RoleByRow(t, v, u, i, role);
      RoleByRow(t', v, u, i, role);
    } else if i :| i in t'.rows && Grants(t'.rows[i], v, u) {
      OthersGetNoRow(t, w, mode, ids, v, u, i);
    }
  }

  /** What `_accept_share` finds before it writes: the user is not the owner, and `row` is the row of the account. */
  ghost predicate CanAccept(t: Tables, s: string, u: string, row: Option<RowId>) {
    s in t.shares && u in t.users && t.shares[s].workspace in t.workspaces &&
    t.workspaces[t.shares[s].workspace].owner != u &&
    if row.Some? then IsRow(t, row.value, t.shares[s].workspace, t.users[u].externalId)
    else !HasRow(t, t.shares[s].workspace, t.users[u].externalId)
  }

  /** Redeeming a share lets the user in. */
  lemma AcceptLetsIn(t: Tables, s: string, u: string, row: Option<RowId>)
    requires Valid(t) && CanAccept(t, s, u, row)
    ensures CanOpen(AfterAccept(t, s, u, row), t.shares[s].workspace, u)
  {
    var t' := AfterAccept(t, s, u, row);
    AcceptKeepsValid(t, s, u, row);
    var k := if row.Some? then row.value else t.next;
    assert row.Some? ==> RowOk(t, t.rows[k]);
    assert Grants(t'.rows[k], t.shares[s].workspace, u);
    MemberCanOpen(t', t.shares[s].workspace, u);
  }

  /**
    The role that redeeming gives a user who had none: the share's mode, or the mode of the invitation that was
    pending; and the share it came from.
   */
  lemma AcceptedRole(t: Tables, s: string, u: string, row: Option<RowId>, role: Role)
    requires Valid(t) && CanAccept(t, s, u, row) && !CanOpen(t, t.shares[s].workspace, u)
    ensures var w := t.shares[s].workspace;
            var t' := AfterAccept(t, s, u, row);
            var k := if row.Some? then row.value else t.next;
            k in t'.rows && t'.rows[k].share == Some(s) &&
            (HasRole(t', w, u, role) <==>
               role == if t.workspaces[w].archived then Mode(READONLY)
                       else Mode(if row.Some? then t.rows[row.value].mode else t.shares[s].mode))
  {
    var w := t.shares[s].workspace;
    var t' := AfterAccept(t, s, u, row);
    AcceptKeepsValid(t, s, u, row);
    var k := if row.Some? then row.value else t.next;
    if row.Some? {
      assert RowOk(t, t.rows[k]);
      if t.rows[k].accepted {
        assert Grants(t.rows[k], w, u);
        MemberCanOpen(t, w, u);
      }
    }
    assert Grants(t'.rows[k], w, u);
    RoleByRow(t', w, u, k, role);
  }

  lemma OtherGrantsStay(t: Tables, s: string, u: string, row: Option<RowId>, v: string, x: string, i: RowId)
    requires Valid(t) && CanAccept(t, s, u, row) && (v != t.shares[s].workspace || x != u)
    ensures var t' := AfterAccept(t, s, u, row);
            if i in t.rows && Grants(t.rows[i], v, x) then i in t'.rows && t'.rows[i] == t.rows[i]
            else i in t'.rows ==> !Grants(t'.rows[i], v, x)
  {
    assert i in t.rows ==> RowOk(t, t.rows[i]);
  }

  /** It changes nobody else's role, and no role the user had. */
  lemma AcceptKeepsOtherRoles(t: Tables, s: string, u: string, row: Option<RowId>, v: string, x: string, role: Role)
    requires Valid(t) && CanAccept(t, s, u, row)
    requires v != t.shares[s].workspace || x != u || CanOpen(t, v, u)
    ensures HasRole(AfterAccept(t, s, u, row), v, x, role) <==> HasRole(t, v, x, role)
  {
    var w := t.shares[s].workspace;
    var accepted := row.Some? && t.rows[row.value].accepted;
    if !accepted {
      AccessByRow(t, w, u, if row.Some? then row.value else t.next);
    }
    if v != w || x != u {
      forall i: RowId {
        OtherGrantsStay(t, s, u, row, v, x, i);
      }
    }
  }

  /** A user whose row is missing or pending cannot open the workspace. */
  lemma AccessByRow(t: Tables, w: string, u: string, k: RowId)
    requires Valid(t) && w in t.workspaces && u in t.users && t.workspaces[w].owner != u
    requires if k in t.rows then IsRow(t, k, w, t.users[u].externalId) && !t.rows[k].accepted
             else !HasRow(t, w, t.users[u].externalId)
    ensures !CanOpen(t, w, u)
  {
    MemberCanOpen(t, w, u);
    if i :| i in t.rows && Grants(t.rows[i], w, u) {
      assert RowOk(t, t.rows[i]);
      assert k in t.rows ==> SameKey(t.rows[i], t.rows[k]);
    }
  }

  /** A revocation ends the access of the row's account, as there is no other row for it, and of nobody else. */
  lemma RevokeRoles(t: Tables, i: RowId, v: string, x: string, role: Role)
    requires Valid(t) && i in t.rows
    ensures HasRole(AfterRevoke(t, i), v, x, role) <==> !Grants(t.rows[i], v, x) && HasRole(t, v, x, role)
  {
    var t' := AfterRevoke(t, i);
    if Grants(t.rows[i], v, x) {
      assert RowOk(t, t.rows[i]);
      OwnerHasNoRow(t, i, v);
      forall j | j in t.rows && Grants(t.rows[j], v, x) ensures j == i {
        OneRowPerAccount(t, i, j, v, x);
      }
    } else {
      assert forall j :: j in t.rows && Grants(t.rows[j], v, x) ==> j in t'.rows;
    }
  }

  /** Deleting a share takes nobody's access away. */
  lemma DeleteShareRoles(t: Tables, s: string, v: string, x: string, role: Role)
    ensures HasRole(AfterDeleteShare(t, s), v, x, role) <==> HasRole(t, v, x, role)
  {
    var t' := AfterDeleteShare(t, s);
    assert forall i :: i in t.rows ==>
             i in t'.rows && (Grants(t'.rows[i], v, x) <==> Grants(t.rows[i], v, x)) &&
             t'.rows[i].mode == t.rows[i].mode;
    assert forall i :: i in t'.rows ==> i in t.rows;
  }

  /** At login a GitHub user gets the invitations of the account. */
  lemma ActivationLetsIn(t: Tables, u: string, v: string)
    requires Valid(t) && u in t.users && t.users[u].github && HasRow(t, v, t.users[u].externalId)
    ensures CanOpen(AfterActivation(t, u), v, u)
  {
    var t' := AfterActivation(t, u);
    ActivationKeepsValid(t, u);
    var i :| i in t.rows && t.rows[i].workspace == v && t.rows[i].githubId == t.users[u].externalId;
    assert RowOk(t, t.rows[i]);
    assert Grants(t'.rows[i], v, u);
    MemberCanOpen(t', v, u);
  }

  /** The role is that of the invitation, unless the user could open the workspace before. */
  lemma ActivatedRole(t: Tables, u: string, v: string, i: RowId, role: Role)
    requires Valid(t) && u in t.users && t.users[u].github && IsRow(t, i, v, t.users[u].externalId)
    ensures HasRole(AfterActivation(t, u), v, u, role) <==>
              role == if t.workspaces[v].archived then Mode(READONLY) else Mode(t.rows[i].mode)
  {
    ActivationKeepsValid(t, u);
    assert RowOk(t, t.rows[i]);
    assert Grants(AfterActivation(t, u).rows[i], v, u);
    RoleByRow(AfterActivation(t, u), v, u, i, role);
  }

  /** Without an invitation, or for a user who is not from GitHub, a login changes no role. */
  lemma NothingToActivate(t: Tables, u: string, v: string, role: Role)
    requires Valid(t) && u in t.users && !(t.users[u].github && HasRow(t, v, t.users[u].externalId))
    ensures HasRole(AfterActivation(t, u), v, u, role) <==> HasRole(t, v, u, role)
  {
    var t' := AfterActivation(t, u);
    assert forall i :: i in t.rows ==> i in t'.rows && t'.rows[i].workspace == t.rows[i].workspace;
    assert forall i :: i in t.rows && t.rows[i].workspace == v ==> t'.rows[i] == t.rows[i];
    assert forall i :: i in t'.rows ==> i in t.rows;
  }

  lemma ActivationKeepsOtherRoles(t: Tables, u: string, v: string, x: string, role: Role)
    requires Valid(t) && u in t.users && x != u
    ensures HasRole(AfterActivation(t, u), v, x, role) <==> HasRole(t, v, x, role)
  {
    var t' := AfterActivation(t, u);
    forall i | i in t.rows
      ensures i in t'.rows && t'.rows[i].mode == t.rows[i].mode &&
              (Grants(t'.rows[i], v, x) <==> Grants(t.rows[i], v, x))
    {
      assert RowOk(t, t.rows[i]);
    }
    assert forall i :: i in t'.rows ==> i in t.rows;
  }

  /** The roles on a workspace go with it, and no others. */
  lemma DeleteWorkspaceRoles(t: Tables, w: string, v: string, x: string, role: Role)
    ensures HasRole(AfterDeleteWorkspace(t, w), v, x, role) <==> v != w && HasRole(t, v, x, role)
  {
    var t' := AfterDeleteWorkspace(t, w);
    if v != w && HasRole(t, v, x, role) && t.workspaces[v].owner != x {
      var i :| i in t.rows && Grants(t.rows[i], v, x) && role == RoleOf(t.workspaces[v], t.rows[i]);
      assert i in t'.rows && t'.rows[i] == t.rows[i];
    }
  }

  class ShareTables {
    var users: map<string, User>
    var workspaces: map<string, Workspace>
    var rows: map<RowId, Collaborator>
    var shares: map<string, Share>
    var next: RowId   // for the ids of new rows

    function ToTables(): Tables
      reads this
    {
      Tables(users, workspaces, rows, shares, next)
    }

    constructor ()
      ensures Valid(ToTables())
    {
      users, workspaces, rows, shares, next := map[], map[], map[], map[], 0;
    }

    // --- Reading ---

    method ResolveRole(w: string, u: string) returns (role: Option<Role>)
      requires w in workspaces
      ensures role.Some? ==> HasRole(ToTables(), w, u, role.value)
      ensures role == None ==> !CanOpen(ToTables(), w, u)
      ensures role == Some(Owner) <==> u != "" && workspaces[w].owner == u
      ensures role.Some? && role != Some(Owner) && workspaces[w].archived ==> role == Some(Mode("readonly"))
    {
      if u == "" {
        return None;
      }
      if workspaces[w].owner == u {
        return Some(Owner);
      }
      if i :| i in rows && Grants(rows[i], w, u) {
        assert HasRole(ToTables(), w, u, RoleOf(workspaces[w], rows[i]));
        return Some(RoleOf(workspaces[w], rows[i]));
      }
      return None;
    }

    /** `workspace_members`: exactly the users who can open the workspace, each once. */
    method WorkspaceMembers(w: string) returns (members: seq<string>)
      requires Valid(ToTables()) && w in workspaces
      ensures Distinct(members) && forall u :: u in members <==> CanOpen(ToTables(), w, u)
    {
      ghost var t := ToTables();
      members := [workspaces[w].owner];
      var todo := rows.Keys;
      while todo != {}
        invariant todo <= rows.Keys && Distinct(members)
        invariant forall u :: u in members <==>
                    u == workspaces[w].owner || exists i :: i in rows && i !in todo && Grants(rows[i], w, u)
      {
        var i :| i in todo;
        if rows[i].workspace == w && rows[i].accepted && rows[i].account.Some? {
          var u := rows[i].account.value;
          OwnerHasNoRow(t, i, w);
          forall j | j in rows && Grants(rows[j], w, u) ensures j == i {
            OneRowPerAccount(t, i, j, w, u);
          }
          assert Grants(rows[i], w, u) && u !in members;
          members := members + [u];
        }
        todo := todo - {i};
      }
      forall u ensures u in members <==> CanOpen(t, w, u) {
        MemberCanOpen(t, w, u);
      }
    }

    /** `get_user_workspaces`: every workspace the user can open exactly once, with the role `resolve_role` gives. */
    method GetUserWorkspaces(u: string) returns (list: seq<(string, Role)>)
      requires Valid(ToTables()) && u in users
      ensures DistinctWorkspaces(list)
      ensures forall w, role :: (w, role) in list <==> HasRole(ToTables(), w, u, role)
    {
      var owned := ListOwned(u);
      var collaborations := CollaborationsByWorkspace(u);
      var shared := ListCollaborations(u, collaborations);
      list := owned + shared;
      ghost var t := ToTables();
      forall w | w in collaborations ensures t.workspaces[w].owner != u {
        OwnerHasNoRow(t, collaborations[w], w);
      }
    }

    method ListOwned(u: string) returns (list: seq<(string, Role)>)
      ensures DistinctWorkspaces(list)
      ensures forall p :: p in list <==> p.0 in workspaces && workspaces[p.0].owner == u && p.1 == Owner
    {
      list := [];
      var todo := workspaces.Keys;
      while todo != {}
        invariant todo <= workspaces.Keys && DistinctWorkspaces(list)
        invariant forall p :: p in list <==>
                    p.0 in workspaces && p.0 !in todo && workspaces[p.0].owner == u && p.1 == Owner
      {
        var w :| w in todo;
        if workspaces[w].owner == u {
          list := list + [(w, Owner)];
        }
        todo := todo - {w};
      }
    }

    /** The dictionary from workspaces to the user's accepted rows. */
    method CollaborationsByWorkspace(u: string) returns (byWorkspace: map<string, RowId>)
      requires Valid(ToTables())
      ensures forall w :: w in byWorkspace ==>
                w in workspaces && byWorkspace[w] in rows && Grants(rows[byWorkspace[w]], w, u)
      ensures forall i :: i in rows && Grants(rows[i], rows[i].workspace, u) ==>
                rows[i].workspace in byWorkspace && byWorkspace[rows[i].workspace] == i
    {
      byWorkspace := map[];
      var todo := rows.Keys;
      ghost var t := ToTables();
      while todo != {}
        invariant todo <= rows.Keys
        invariant forall w :: w in byWorkspace ==>
                    w in workspaces && byWorkspace[w] in rows && Grants(rows[byWorkspace[w]], w, u)
        invariant forall i :: i in rows && i !in todo && Grants(rows[i], rows[i].workspace, u) ==>
                    rows[i].workspace in byWorkspace && byWorkspace[rows[i].workspace] == i
      {
        var i :| i in todo;
        assert RowOk(t, rows[i]);
        if rows[i].account == Some(u) && rows[i].accepted {
          forall j | j in rows && Grants(rows[j], rows[i].workspace, u) ensures j == i {
            OneRowPerAccount(t, i, j, rows[i].workspace, u);
          }
          byWorkspace := byWorkspace[rows[i].workspace := i];
        }
        todo := todo - {i};
      }
    }

    method ListCollaborations(u: string, byWorkspace: map<string, RowId>) returns (list: seq<(string, Role)>)
      requires forall w :: w in byWorkspace ==> w in workspaces && byWorkspace[w] in rows
      ensures DistinctWorkspaces(list)
      ensures forall p :: p in list <==> p.0 in byWorkspace && p.1 == RoleOf(workspaces[p.0], rows[byWorkspace[p.0]])
    {
      list := [];
      var todo := byWorkspace.Keys;
      while todo != {}
        invariant todo <= byWorkspace.Keys && DistinctWorkspaces(list)
        invariant forall p :: p in list <==>
                    p.0 in byWorkspace && p.0 !in todo && p.1 == RoleOf(workspaces[p.0], rows[byWorkspace[p.0]])
      {
        var w :| w in todo;
        list := list + [(w, RoleOf(workspaces[w], rows[byWorkspace[w]]))];
        todo := todo - {w};
      }
    }

    // --- Writing ---

    method FindAccount(githubId: string) returns (account: Option<string>)
      requires UsersOk(ToTables())
      ensures account == AccountOf(ToTables(), githubId)
    {
      if u :| u in users && users[u].github && users[u].externalId == githubId {
        AccountIsUnique(ToTables(), u, githubId);
        return Some(u);
      }
      return None;
    }

    method FindRow(w: string, githubId: string) returns (row: Option<RowId>)
      ensures if row.Some? then IsRow(ToTables(), row.value, w, githubId) else !HasRow(ToTables(), w, githubId)
    {
      if i :| i in rows && rows[i].workspace == w && rows[i].githubId == githubId {
        return Some(i);
      }
      return None;
    }

    /** `_upsert_collaborators`: stages row by row, and commits at the end. */
    method UpsertCollaborators(w: string, mode: string, githubIds: seq<string>) returns (outcome: Outcome)
      requires Valid(ToTables())
      modifies this`rows, this`next
      ensures outcome == UpsertOutcome(old(ToTables()), w, githubIds)
      ensures ToTables() == AfterUpsert(old(ToTables()), w, mode, githubIds) && Valid(ToTables())
    {
      ghost var t := ToTables();
      if w !in workspaces {
        return Conflict;
      }
      var owner := users[workspaces[w].owner].externalId;
      var staged := rows;
      var added: seq<Collaborator> := [];
      var ids: seq<string> := [];
      for n := 0 to |githubIds|
        invariant ToTables() == t && owner !in githubIds[..n]
        invariant staged == Restaged(t, w, mode, githubIds[..n])
        invariant ids == NewIds(t, w, githubIds[..n]) && added == Invites(t, w, mode, githubIds[..n])
      {
        var githubId := githubIds[n];
        TakeOneMore(githubIds, n);
        if githubId == owner {
          return Refused;
        }
        var account := FindAccount(githubId);
        var row := FindRow(w, githubId);
        if row.Some? {
          StageOne(t, w, mode, githubIds, n, row.value);
          staged := staged[row.value := Reinvited(staged[row.value], mode, account)];
        } else {
          StageNone(t, w, mode, githubIds, n);
          ids := ids + [githubId];
          added := added + [NewInvite(w, githubId, mode, account)];
        }
      }
      assert githubIds[..|githubIds|] == githubIds;
      if !Distinct(ids) {
        return Conflict;
      }
      UpsertKeepsValid(t, w, mode, githubIds);
      rows := Inserted(staged, next, added);
      next := next + |added|;
      return Ok;
    }

    method ActivatePendingCollaborators(u: string)
      requires Valid(ToTables()) && u in users
      modifies this`rows
      ensures ToTables() == AfterActivation(old(ToTables()), u) && Valid(ToTables())
    {
      ActivationKeepsValid(ToTables(), u);
      if users[u].github {
        var externalId := users[u].externalId;
        rows := map i | i in rows :: Activated(rows[i], u, externalId);
      }
    }

    /**
      The OAuth callback: finds or creates the user (`newId` if it is created) and takes up the account's invitations.
     */
    method Login(externalId: string, github: bool, newId: string) returns (outcome: Outcome, u: string)
      requires Valid(ToTables()) && newId != "" && newId !in users
      modifies this`users, this`rows
      ensures Valid(ToTables())
      ensures outcome != Ok ==> ToTables() == old(ToTables())
      ensures outcome == Ok <==>
              forall a :: a in old(users) && old(users)[a].externalId == externalId ==> old(users)[a].github == github
      ensures outcome == Ok ==> u in users && users[u] == User(externalId, github) && (u in old(users) || u == newId)
      ensures outcome == Ok ==>
                ToTables() == AfterActivation(old(ToTables()).(users := old(users)[u := User(externalId, github)]), u)
    {
      if known :| known in users && users[known].externalId == externalId {
        if users[known].github != github {
          return Conflict, "";
        }
        assert users[known := User(externalId, github)] == users;
        u := known;
      } else {
        NewUserKeepsValid(ToTables(), newId, User(externalId, github));
        u := newId;
        users := users[u := User(externalId, github)];
      }
      ActivatePendingCollaborators(u);
      outcome := Ok;
    }

    /** `redeem_share` with a share's token. */
    method RedeemShare(s: string, u: string, now: int) returns (outcome: Outcome)
      requires Valid(ToTables()) && u in users
      modifies this`rows, this`next
      ensures Valid(ToTables())
      ensures outcome == if s in shares && (shares[s].expiresAt == None || now < shares[s].expiresAt.value) then Ok
              else NotFound
      ensures outcome == NotFound || workspaces[shares[s].workspace].owner == u ==> ToTables() == old(ToTables())
      ensures outcome == Ok && workspaces[shares[s].workspace].owner != u ==>
                exists row :: CanAccept(old(ToTables()), s, u, row) &&
                    ToTables() == AfterAccept(old(ToTables()), s, u, row)
    {
      if !Live(ToTables(), s, now) {
        return NotFound;
      }
      var w := shares[s].workspace;
      if workspaces[w].owner != u {
        var row := FindRow(w, users[u].externalId);
        AcceptKeepsValid(ToTables(), s, u, row);
        if row == None {
          rows := rows[next := Collaborator(w, users[u].externalId, Some(u), shares[s].mode, true, Some(s))];
          next := next + 1;
        } else if !rows[row.value].accepted {
          rows := rows[row.value := Accept(rows[row.value], u).(share := Some(s))];
        }
        assert CanAccept(old(ToTables()), s, u, row) && ToTables() == AfterAccept(old(ToTables()), s, u, row);
      }
      return Ok;
    }

    method RevokeCollaborator(w: string, i: RowId) returns (outcome: Outcome)
      requires Valid(ToTables())
      modifies this`rows
      ensures Valid(ToTables())
      ensures outcome == if i in old(rows) && old(rows)[i].workspace == w then Ok else NotFound
      ensures ToTables() == if outcome == Ok then AfterRevoke(old(ToTables()), i) else old(ToTables())
    {
      if i !in rows || rows[i].workspace != w {
        return NotFound;
      }
      KeysKeepUnique(rows, rows - {i});
      rows := rows - {i};
      return Ok;
    }

    method DeleteShare(w: string, s: string) returns (outcome: Outcome)
      requires Valid(ToTables())
      modifies this`rows, this`shares
      ensures Valid(ToTables())
      ensures outcome == if s in old(shares) && old(shares)[s].workspace == w then Ok else NotFound
      ensures ToTables() == if outcome == Ok then AfterDeleteShare(old(ToTables()), s) else old(ToTables())
    {
      if s !in shares || shares[s].workspace != w {
        return NotFound;
      }
      DeleteShareKeepsValid(ToTables(), s);
      rows := map i | i in rows :: Detach(rows[i], s);
      shares := shares - {s};
      return Ok;
    }

    method CreateShare(w: string, s: string, mode: string, expiresAt: Option<int>)
      requires Valid(ToTables()) && w in workspaces && s !in shares
      modifies this`shares
      ensures Valid(ToTables()) && shares == old(shares)[s := Share(w, mode, expiresAt)]
    {
      shares := shares[s := Share(w, mode, expiresAt)];
      assert forall i :: i in rows ==> RowOk(old(ToTables()), rows[i]);
    }

    method DeleteWorkspace(w: string)
      requires Valid(ToTables())
      modifies this`workspaces, this`rows, this`shares
      ensures Valid(ToTables()) && ToTables() == AfterDeleteWorkspace(old(ToTables()), w)
    {
      DeleteWorkspaceKeepsValid(ToTables(), w);
      workspaces := workspaces - {w};
      rows := map i | i in rows && rows[i].workspace != w :: rows[i];
      shares := map s | s in shares && shares[s].workspace != w :: shares[s];
    }

    method CreateWorkspace(w: string, owner: string)
      requires Valid(ToTables()) && owner in users && w !in workspaces
      modifies this`workspaces
      ensures Valid(ToTables()) && workspaces == old(workspaces)[w := Workspace(owner, false)]
    {
      workspaces := workspaces[w := Workspace(owner, false)];
      assert forall i :: i in rows ==> RowOk(old(ToTables()), rows[i]);
    }

    method SetArchived(w: string, archived: bool)
      requires Valid(ToTables()) && w in workspaces
      modifies this`workspaces
      ensures Valid(ToTables()) && workspaces == old(workspaces)[w := old(workspaces)[w].(archived := archived)]
    {
      ghost var t := ToTables();
      workspaces := workspaces[w := workspaces[w].(archived := archived)];
      forall i | i in rows ensures RowOk(ToTables(), rows[i]) {
        assert RowOk(t, rows[i]);
      }
    }
  }

  lemma NewUserKeepsValid(t: Tables, u: string, user: User)
    requires Valid(t) && u != "" && u !in t.users && forall a :: a in t.users ==>
               t.users[a].externalId != user.externalId
    ensures Valid(t.(users := t.users[u := user]))
  {
    var t' := t.(users := t.users[u := user]);
    forall i | i in t'.rows ensures RowOk(t', t'.rows[i]) {
      assert RowOk(t, t.rows[i]);
    }
  }

  lemma TakeOneMore(ids: seq<string>, n: nat)
    requires n < |ids|
    ensures ids[..n + 1] == ids[..n] + [ids[n]] && ids[..n + 1][..n] == ids[..n]
  {
  }

  /** The next invited account has a row. */
  lemma StageOne(t: Tables, w: string, mode: string, ids: seq<string>, n: nat, row: RowId)
    requires Valid(t) && n < |ids| && IsRow(t, row, w, ids[n])
    ensures var staged := Restaged(t, w, mode, ids[..n]);
            Restaged(t, w, mode, ids[..n + 1]) == staged[row := Reinvited(staged[row], mode, AccountOf(t, ids[n]))]
    ensures NewIds(t, w, ids[..n + 1]) == NewIds(t, w, ids[..n])
    ensures Invites(t, w, mode, ids[..n + 1]) == Invites(t, w, mode, ids[..n])
  {
    TakeOneMore(ids, n);
    assert HasRow(t, w, ids[n]);
    assert NewIds(t, w, ids[..n + 1]) == NewIds(t, w, ids[..n]);
    OtherRowsUntouched(t, w, ids, n, row);
  }

  lemma OtherRowsUntouched(t: Tables, w: string, ids: seq<string>, n: nat, row: RowId)
    requires Valid(t) && n < |ids| && IsRow(t, row, w, ids[n])
    ensures forall i :: i in t.rows && i != row && t.rows[i].workspace == w ==>
              (t.rows[i].githubId in ids[..n + 1] <==> t.rows[i].githubId in ids[..n])
  {
    TakeOneMore(ids, n);
    forall i | i in t.rows && i != row && t.rows[i].workspace == w ensures t.rows[i].githubId != ids[n] {
      assert !SameKey(t.rows[i], t.rows[row]);
    }
  }

  /** The next invited account has no row. */
  lemma StageNone(t: Tables, w: string, mode: string, ids: seq<string>, n: nat)
    requires n < |ids| && !HasRow(t, w, ids[n])
    ensures Restaged(t, w, mode, ids[..n + 1]) == Restaged(t, w, mode, ids[..n])
    ensures NewIds(t, w, ids[..n + 1]) == NewIds(t, w, ids[..n]) + [ids[n]]
    ensures Invites(t, w, mode, ids[..n + 1]) ==
              Invites(t, w, mode, ids[..n]) + [NewInvite(w, ids[n], mode, AccountOf(t, ids[n]))]
  {
    TakeOneMore(ids, n);
  }

  lemma MemberCanOpen(t: Tables, w: string, u: string)
    requires Valid(t) && w in t.workspaces
    ensures CanOpen(t, w, u) <==> u == t.workspaces[w].owner || exists i :: i in t.rows && Grants(t.rows[i], w, u)
  {
    if u == t.workspaces[w].owner {
      assert HasRole(t, w, u, Owner);
    } else if i :| i in t.rows && Grants(t.rows[i], w, u) {
      assert RowOk(t, t.rows[i]);
      assert HasRole(t, w, u, RoleOf(t.workspaces[w], t.rows[i]));
    }
  }
}
