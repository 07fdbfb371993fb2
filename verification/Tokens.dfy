/**
  Renewal and revocation of one user's GitHub tokens: requests, logins and logouts of the server
  process, which share the user's refresh lock, and the idle cleanup, a process of its own.

  A step is what runs between two awaits. Refresh tokens are numbered; GitHub never hands out the
  same one twice and each is single-use (section 6 of RFC 6749). A token is spent once GitHub exchanged
  it, whether or not the server ever gets the pair that replaces it.
 */
module Tokens {
  datatype Option<+T> = None | Some(value: T)

  type Token = nat
  type ActorId = nat

  const EXPIRY_BUFFER := 5 * 60
  const GITHUB_TOKEN_LIFETIME := 8 * 3600

  datatype Row = Row(access: Option<Token>, refresh: Option<Token>, expiry: Option<int>, version: nat)

  /** A token response; GitHub omits the last two for a token without expiry. */
  datatype Pair = Pair(access: Token, refresh: Option<Token>, expiresIn: Option<nat>)

  datatype Kind = Request(jwt: nat) | Logout | IdleJob(expiry: Option<int>)

  datatype Phase =
    | Queued                  // for the refresh lock
    | Exchanging(sent: Token)
    | Rotated(sent: Token)    // revoking the pair that replaced `sent`
    | Revoking
    | Clearing                // the idle job's conditional update is next
    | Accepted
    | Refused
    | Done

  datatype Actor = Actor(kind: Kind, phase: Phase)

  /**
    `jwts` holds the session versions of the JWTs issued so far; renewing a session issues one with the version of its
    JWT.
   */
  datatype State = State(row: Row, lock: Option<ActorId>, actors: seq<Actor>, issued: set<Token>, spent: set<Token>,
      jwts: set<nat>)

  /** An exchange is refused, for a token that was spent before or for another reason, or its reply is lost. */
  datatype Failure = BadRefreshToken | OtherError | ReplyLost(exchanged: bool)

  datatype Action =
    | Login(pair: Pair, now: int)
    | Arrive(jwt: nat, now: int)
    | BeginLogout(jwt: nat, now: int)
    | BeginIdle(now: int)
    | Proceed(i: ActorId, now: int)          // a queued actor gets its turn
    | Reply(i: ActorId, pair: Pair, now: int)
    | Fail(i: ActorId, failure: Failure)
    | Revoked(i: ActorId, confirmed: bool)
    | Clear(i: ActorId)
    | Cancel(i: ActorId, exchanged: bool)    // the request is cancelled; an exchange in flight may have been performed

  predicate Expired(expiry: Option<int>, now: int) {
    expiry == None || now >= expiry.value - EXPIRY_BUFFER
  }

  function Expiry(pair: Pair, now: int): Option<int> {
    Some(now + if pair.expiresIn.Some? && pair.expiresIn.value != 0 then pair.expiresIn.value
        else GITHUB_TOKEN_LIFETIME)
  }

  /** What a logout does to the row in the end. */
  function LoggedOut(row: Row): Row {
    Row(None, None, None, row.version + 1)
  }

  predicate FreshPair(s: State, pair: Pair) {
    pair.refresh.Some? ==> pair.refresh.value !in s.issued
  }

  function Issued(s: State, pair: Pair): set<Token> {
    if pair.refresh.Some? then s.issued + {pair.refresh.value} else s.issued
  }

  predicate InPhase(s: State, i: ActorId, phase: Phase) {
    i < |s.actors| && s.actors[i].phase == phase
  }

  predicate Exchanges(s: State, i: ActorId) {
    i < |s.actors| && s.actors[i].phase.Exchanging?
  }

  predicate Enabled(s: State, a: Action) {
    match a
    case Login(pair, _) => FreshPair(s, pair)
    case Arrive(jwt, _) => jwt in s.jwts
    case BeginLogout(jwt, _) => jwt in s.jwts
    case BeginIdle(_) => s.row.access.Some? || s.row.refresh.Some?
    case Proceed(i, _) => InPhase(s, i, Queued) && (s.lock == None || s.actors[i].kind.IdleJob?)
    case Reply(i, pair, _) => Exchanges(s, i) && FreshPair(s, pair)
    case Fail(i, _) => Exchanges(s, i)
    case Revoked(i, _) => InPhase(s, i, Revoking) || (i < |s.actors| && s.actors[i].phase.Rotated?)
    case Clear(i) => InPhase(s, i, Clearing)
    case Cancel(i, exchanged) =>
      i < |s.actors| && !s.actors[i].kind.IdleJob? && (exchanged ==> s.actors[i].phase.Exchanging?) &&
      (s.actors[i].phase.Queued? || s.actors[i].phase.Exchanging? || s.actors[i].phase.Rotated? ||
      s.actors[i].phase.Revoking?)
  }

  function Spawn(s: State, kind: Kind, phase: Phase): State {
    s.(actors := s.actors + [Actor(kind, phase)])
  }

  function To(s: State, i: ActorId, phase: Phase): State
    requires i < |s.actors|
  {
    s.(actors := s.actors[i := s.actors[i].(phase := phase)])
  }

  /** The holder of the lock gives it back. */
  function Unlock(s: State, i: ActorId): State {
    if s.lock == Some(i) then s.(lock := None) else s
  }

  function Verdict(row: Row, jwt: nat): Phase {
    if row.version == jwt then Accepted else Refused
  }

  /** Logout and idle job: what to do once the row was read. */
  function RevocationStart(row: Row, now: int, queued: Phase): Phase {
    if row.refresh.Some? && Expired(row.expiry, now) then queued
    else if row.access.Some? then Revoking
    else Clearing
  }

  /** A logout clears the row in the step that ends its revocation. */
  function Finish(s: State, i: ActorId): State
    requires i < |s.actors|
  {
    if s.actors[i].kind.IdleJob? then To(s, i, Clearing)
    else To(Unlock(s, i), i, Done).(row := LoggedOut(s.row))
  }

  function Begin(s: State, kind: Kind, now: int): State {
    var phase := RevocationStart(s.row, now, Queued);
    if phase == Clearing && kind.Logout? then Spawn(s, kind, Done).(row := LoggedOut(s.row)) else Spawn(s, kind, phase)
  }

  function ProceedRequest(s: State, i: ActorId, now: int): State
    requires i < |s.actors| && s.actors[i].kind.Request?
  {
    if !Expired(s.row.expiry, now) then To(s, i, Verdict(s.row, s.actors[i].kind.jwt))
    else if s.row.refresh == None then To(s, i, Refused)
    else To(s, i, Exchanging(s.row.refresh.value)).(lock := Some(i))
  }

  function ProceedRevocation(s: State, i: ActorId, now: int): State
    requires i < |s.actors|
  {
    if s.actors[i].kind.IdleJob? && s.row.expiry != s.actors[i].kind.expiry then To(s, i, Clearing) else
    if s.row.refresh.Some? && Expired(s.row.expiry, now) then
      var s' := To(s, i, Exchanging(s.row.refresh.value));
      if s.actors[i].kind.IdleJob? then s' else s'.(lock := Some(i))
    else if s.row.access.Some? then To(s, i, Revoking)
    else Finish(s, i)
  }

  /** refresh_github_token after the reply: the row is read again, as a logout or login may have come between. */
  function StorePair(s: State, i: ActorId, pair: Pair, now: int): State
    requires Exchanges(s, i) && s.actors[i].kind.Request?
  {
    if s.row.access == None then To(Unlock(s, i), i, Refused) else
    var refresh := if pair.refresh.Some? then pair.refresh else s.row.refresh;
    To(Unlock(s, i), i,
        Verdict(s.row, s.actors[i].kind.jwt)).(row := Row(Some(pair.access), refresh, Expiry(pair, now), s.row.version))
  }

  function Spend(s: State, sent: Token, exchanged: bool): State {
    if exchanged then s.(spent := s.spent + {sent}) else s
  }

  function Next(s: State, a: Action): State
    requires Enabled(s, a)
  {
    match a
    case Login(pair, now) =>
      s.(row := Row(Some(pair.access), pair.refresh, Expiry(pair, now), s.row.version),
         issued := Issued(s, pair), jwts := s.jwts + {s.row.version})
    case Arrive(jwt, now) =>
      Spawn(s, Request(jwt), if jwt != s.row.version then Refused
          else if Expired(s.row.expiry, now) then Queued else Accepted)
    case BeginLogout(jwt, now) => if jwt != s.row.version then Spawn(s, Logout, Refused) else Begin(s, Logout, now)
    case BeginIdle(now) => Begin(s, IdleJob(s.row.expiry), now)
    case Proceed(i, now) =>
      if s.actors[i].kind.Request? then ProceedRequest(s, i, now) else ProceedRevocation(s, i, now)
    case Reply(i, pair, now) =>
      var sent := s.actors[i].phase.sent;
      var s' := if s.actors[i].kind.Request? then StorePair(s, i, pair, now) else To(s, i, Rotated(sent));
      s'.(spent := s.spent + {sent}, issued := Issued(s, pair))
    case Fail(i, failure) =>
      var s' := if s.actors[i].kind.Request? then To(Unlock(s, i), i, Refused)
                else if s.actors[i].kind.IdleJob? && failure != BadRefreshToken then To(s, i, Done)
                else Finish(s, i);
      Spend(s', s.actors[i].phase.sent, failure == ReplyLost(true))
    case Revoked(i, confirmed) =>
      if s.actors[i].kind.IdleJob? && s.actors[i].phase.Revoking? && !confirmed then To(s, i, Done) else Finish(s, i)
    case Clear(i) =>
      var s' := To(s, i, Done);
      if s.actors[i].kind.IdleJob? && s.row.expiry == s.actors[i].kind.expiry
      then s'.(row := Row(None, None, None, s.row.version)) else s'
    case Cancel(i, exchanged) =>
      var s' := To(Unlock(s, i), i, Refused);
      if exchanged then Spend(s', s.actors[i].phase.sent, true) else s'
  }

  predicate ActsFor(a: Action, i: ActorId) {
    match a
    case Proceed(j, _) => i == j
    case Reply(j, _, _) => i == j
    case Fail(j, _) => i == j
    case Revoked(j, _) => i == j
    case Clear(j) => i == j
    case Cancel(j, _) => i == j
    case _ => false
  }

  // --- Runs ---

  const INITIAL := State(Row(None, None, None, 0), None, [], {}, {}, {})

  ghost predicate Possible(s: State, actions: seq<Action>)
    decreases |actions|
  {
    actions == [] || (Enabled(s, actions[0]) && Possible(Next(s, actions[0]), actions[1..]))
  }

  ghost function After(s: State, actions: seq<Action>): State
    requires Possible(s, actions)
    decreases |actions|
  {
    if actions == [] then s else After(Next(s, actions[0]), actions[1..])
  }

  // --- Session versions: a JWT from before a logout is never accepted again ---

  /** The step accepts a request that carries a JWT of version `v`. */
  ghost predicate Accepts(s: State, a: Action, v: nat)
    requires Enabled(s, a)
  {
    exists i :: 0 <= i < |Next(s, a).actors| && Next(s, a).actors[i] == Actor(Request(v), Accepted) &&
                (i < |s.actors| ==> s.actors[i].phase != Accepted)
  }

  /** The step ends a logout. */
  predicate EndsSession(s: State, a: Action)
    requires Enabled(s, a)
  {
    Next(s, a).row == LoggedOut(s.row)
  }

  ghost predicate VersionsOk(s: State) {
    (forall v :: v in s.jwts ==> v <= s.row.version) &&
    (forall i :: 0 <= i < |s.actors| && s.actors[i].kind.Logout? ==> s.actors[i].phase != Clearing)
  }

  lemma StepKeepsVersions(s: State, a: Action)
    requires VersionsOk(s) && Enabled(s, a)
    ensures VersionsOk(Next(s, a)) && s.row.version <= Next(s, a).row.version
  {
    OthersStay(s, a);
  }

  /** A step leaves all actors alone but the one it acts for. */
  lemma OthersStay(s: State, a: Action)
    requires Enabled(s, a)
    ensures |s.actors| <= |Next(s, a).actors| <= |s.actors| + 1
    ensures forall i :: 0 <= i < |s.actors| ==>
              Next(s, a).actors[i].kind == s.actors[i].kind && (!ActsFor(a, i) ==> Next(s, a).actors[i] == s.actors[i])
  {
    forall i: ActorId | i < |s.actors|
      ensures i < |Next(s, a).actors| && Next(s, a).actors[i].kind == s.actors[i].kind
      ensures !ActsFor(a, i) ==> Next(s, a).actors[i] == s.actors[i]
    {
      OtherStays(s, a, i);
    }
  }

  lemma OtherStays(s: State, a: Action, i: ActorId)
    requires Enabled(s, a) && i < |s.actors|
    ensures i < |Next(s, a).actors| && Next(s, a).actors[i].kind == s.actors[i].kind
    ensures !ActsFor(a, i) ==> Next(s, a).actors[i] == s.actors[i]
  {
  }

  /** A request is accepted by comparing the JWT with the session version the row has at that moment. */
  lemma AcceptedIsCurrent(s: State, a: Action, v: nat)
    requires Enabled(s, a) && Accepts(s, a, v)
    ensures v == s.row.version
  {
    var i := NewlyAccepted(s, a, v);
  }

  /** The request that a step accepts: the one it acts for, or a new one. */
  lemma NewlyAccepted(s: State, a: Action, v: nat) returns (i: ActorId)
    requires Enabled(s, a) && Accepts(s, a, v)
    ensures i < |Next(s, a).actors| && Next(s, a).actors[i] == Actor(Request(v), Accepted)
    ensures if i < |s.actors| then s.actors[i].kind == Request(v) && s.actors[i].phase != Accepted && ActsFor(a, i)
            else i == |s.actors| && a.Arrive?
  {
    OthersStay(s, a);
    i :| i < |Next(s, a).actors| && Next(s, a).actors[i] == Actor(Request(v), Accepted) &&
         (i < |s.actors| ==> s.actors[i].phase != Accepted);
    assert i < |s.actors| ==> ActsFor(a, i);
  }

  lemma {:induction false} RunKeepsVersions(s: State, actions: seq<Action>)
    requires VersionsOk(s) && Possible(s, actions)
    ensures VersionsOk(After(s, actions)) && s.row.version <= After(s, actions).row.version
    decreases |actions|
  {
    if actions != [] {
      StepKeepsVersions(s, actions[0]);
      RunKeepsVersions(Next(s, actions[0]), actions[1..]);
    }
  }

  /**
    Whatever happens before and after it, with logins, other logouts and the idle job: once a logout
    has ended, no request with a JWT issued before that is accepted.
   */
  lemma OldJwtsStayRefused(before: seq<Action>, logout: Action, later: seq<Action>, a: Action, v: nat)
    requires Possible(INITIAL, before) && Enabled(After(INITIAL, before), logout)
    requires EndsSession(After(INITIAL, before), logout) && v in After(INITIAL, before).jwts
    requires Possible(Next(After(INITIAL, before), logout), later)
    requires Enabled(After(Next(After(INITIAL, before), logout), later), a)
    ensures !Accepts(After(Next(After(INITIAL, before), logout), later), a, v)
  {
    RunKeepsVersions(INITIAL, before);
    var s := After(INITIAL, before);
    StepKeepsVersions(s, logout);
    RunKeepsVersions(Next(s, logout), later);
    if Accepts(After(Next(s, logout), later), a, v) {
      AcceptedIsCurrent(After(Next(s, logout), later), a, v);
    }
  }

  // --- A session that ended stays ended ---

  predicate Cleared(row: Row) {
    row.access == None && row.refresh == None && row.expiry == None
  }

  /** The step accepts some request. */
  ghost predicate AcceptsAny(s: State, a: Action)
    requires Enabled(s, a)
  {
    exists v :: Accepts(s, a, v)
  }

  lemma OnlyLoginOpensSession(s: State, a: Action)
    requires Cleared(s.row) && Enabled(s, a) && !a.Login?
    ensures Cleared(Next(s, a).row) && !AcceptsAny(s, a)
  {
    if v :| Accepts(s, a, v) {
      AcceptedIsFresh(s, a, v);
      assert false;
    }
  }

  /**
    Whatever was in flight when the tokens were cleared, also a token exchange that GitHub answers later:
    until the next login the row stays cleared and every request is refused.
   */
  lemma {:induction false} EndedSessionStaysEnded(s: State, actions: seq<Action>, a: Action)
    requires Cleared(s.row) && Possible(s, actions) && (forall k :: 0 <= k < |actions| ==> !actions[k].Login?)
    requires Enabled(After(s, actions), a) && !a.Login?
    ensures Cleared(After(s, actions).row) && !AcceptsAny(After(s, actions), a)
    decreases |actions|
  {
    if actions == [] {
      OnlyLoginOpensSession(s, a);
    } else {
      OnlyLoginOpensSession(s, actions[0]);
      EndedSessionStaysEnded(Next(s, actions[0]), actions[1..], a);
    }
  }

  /** A request is accepted with an access token that lasts five more minutes, or with the one it just got. */
  lemma AcceptedIsFresh(s: State, a: Action, v: nat)
    requires Enabled(s, a) && Accepts(s, a, v)
    ensures if a.Reply? then s.row.access.Some? && Next(s, a).row.access == Some(a.pair.access)
            else (a.Arrive? || a.Proceed?) && s.row.expiry.Some? && a.now + EXPIRY_BUFFER < s.row.expiry.value
  {
    var i := NewlyAccepted(s, a, v);
  }

  /** Only a logout raises the version, so without one a JWT stays as good as it was. */
  lemma OnlyLogoutRaisesVersion(s: State, a: Action)
    requires VersionsOk(s) && Enabled(s, a)
    ensures Next(s, a).row.version != s.row.version <==> EndsSession(s, a)
  {
  }

  /**
    Exactly when a step accepts a request: its JWT has the current session version, and the access token
    lasts five more minutes, or was just renewed in a session that nobody ended meanwhile.
   */
  lemma AcceptsIff(s: State, a: Action, v: nat)
    requires Enabled(s, a)
    ensures Accepts(s, a, v) <==>
              v == s.row.version &&
              match a
              case Arrive(jwt, now) =>
                jwt == v && s.row.expiry.Some? && now + EXPIRY_BUFFER < s.row.expiry.value
              case Proceed(i, now) =>
                s.actors[i].kind == Request(v) && s.row.expiry.Some? && now + EXPIRY_BUFFER < s.row.expiry.value
              case Reply(i, _, _) => s.actors[i].kind == Request(v) && s.row.access.Some?
              case _ => false
  {
    if Accepts(s, a, v) {
      AcceptedIsFresh(s, a, v);
      AcceptedIsCurrent(s, a, v);
      var i := NewlyAccepted(s, a, v);
    } else if a.Arrive? || a.Proceed? || a.Reply? {
      NotAccepted(s, a, v);
    }
  }

  lemma NotAccepted(s: State, a: Action, v: nat)
    requires Enabled(s, a) && (a.Arrive? || a.Proceed? || a.Reply?) && !Accepts(s, a, v)
    ensures var i := if a.Arrive? then |s.actors| else a.i;
            i < |Next(s, a).actors| && Next(s, a).actors[i] != Actor(Request(v), Accepted)
  {
  }

  /** What a login or a renewal stores; a pair that comes after the session ended is not stored. */
  lemma StoredPair(s: State, a: Action)
    requires Enabled(s, a) && (a.Login? || a.Reply?)
    ensures var lasts := match a.pair.expiresIn
                         case Some(seconds) => if seconds > 0 then seconds else GITHUB_TOKEN_LIFETIME
                         case None => GITHUB_TOKEN_LIFETIME;
            Next(s, a).row ==
              if a.Login? then Row(Some(a.pair.access), a.pair.refresh, Some(a.now + lasts), s.row.version)
              else if s.actors[a.i].kind.Request? && s.row.access.Some?
              then Row(Some(a.pair.access), if a.pair.refresh.Some? then a.pair.refresh else s.row.refresh,
                  Some(a.now + lasts), s.row.version)
              else s.row
  {
  }

  // --- Tokens are revoked before they are forgotten ---

  /** A refresh token is only exchanged once the access token is about to expire, and it is the stored one. */
  lemma ExchangesOnlyExpired(s: State, a: Action)
    requires Enabled(s, a) && Sends(s, a).Some?
    ensures s.row.refresh == Sends(s, a) && (s.row.expiry == None || a.now + EXPIRY_BUFFER >= s.row.expiry.value)
  {
  }

  /** An expired access token cannot be revoked, so only one that lasts, or cannot be renewed, is revoked as it is. */
  lemma RevokesOnlyValid(s: State, a: Action, i: ActorId)
    requires Enabled(s, a) && InPhase(Next(s, a), i, Revoking) && !InPhase(s, i, Revoking)
    ensures (a.BeginLogout? || a.BeginIdle? || a.Proceed?) && s.row.access.Some?
    ensures s.row.refresh == None || (s.row.expiry.Some? && a.now + EXPIRY_BUFFER < s.row.expiry.value)
  {
    OthersStay(s, a);
  }

  ghost predicate RowPaired(s: State) {
    (s.row.access.Some? <==> s.row.expiry.Some?) && (s.row.refresh.Some? ==> s.row.access.Some?) &&
    forall i :: 0 <= i < |s.actors| && s.actors[i].kind.IdleJob? ==> s.actors[i].kind.expiry.Some?
  }

  lemma StepKeepsPaired(s: State, a: Action)
    requires RowPaired(s) && Enabled(s, a)
    ensures RowPaired(Next(s, a))
  {
    OthersStay(s, a);
  }

  /**
    The step after which actor `i` clears the row: GitHub confirmed its revocation, or answered at all if the token
    was rotated before; GitHub knew the refresh token as used or revoked; or the session is not the one it was for.
   */
  predicate DecidesToClear(s: State, a: Action, i: ActorId) {
    i < |s.actors| &&
    match a
    case Revoked(j, confirmed) => j == i && (confirmed || s.actors[i].phase.Rotated?)
    case Fail(j, failure) => j == i && failure == BadRefreshToken
    case Proceed(j, _) => j == i && s.actors[i].kind.IdleJob? && s.actors[i].kind.expiry != s.row.expiry
    case _ => false
  }

  /** Requests revoke nothing, and only an idle job puts the clearing off to a step of its own. */
  ghost predicate PhasesOk(s: State) {
    forall i :: 0 <= i < |s.actors| ==>
        (s.actors[i].phase == Clearing ==> s.actors[i].kind.IdleJob?) &&
        (s.actors[i].phase.Revoking? || s.actors[i].phase.Rotated? ==> !s.actors[i].kind.Request?)
  }

  lemma {:induction false} RunKeepsPhases(s: State, actions: seq<Action>)
    requires PhasesOk(s) && Possible(s, actions)
    ensures PhasesOk(After(s, actions))
    decreases |actions|
  {
    if actions != [] {
      StepKeepsPhases(s, actions[0]);
      RunKeepsPhases(Next(s, actions[0]), actions[1..]);
    }
  }

  lemma StepKeepsPhases(s: State, a: Action)
    requires PhasesOk(s) && Enabled(s, a)
    ensures PhasesOk(Next(s, a))
  {
    OthersStay(s, a);
  }

  lemma StepToClearing(s: State, a: Action, i: ActorId)
    requires RowPaired(s) && PhasesOk(s) && Enabled(s, a)
    ensures InPhase(Next(s, a), i, Clearing) && !InPhase(s, i, Clearing) ==> DecidesToClear(s, a, i)
    ensures DecidesToClear(s, a, i) && s.actors[i].kind.IdleJob? ==> InPhase(Next(s, a), i, Clearing)
  {
    OthersStay(s, a);
    assert i < |s.actors| ==> i < |Next(s, a).actors|;
  }

  /** How an actor came to clear the row, in a run that starts with none that is about to. */
  lemma {:induction false} DecidedBefore(s: State, actions: seq<Action>, i: ActorId) returns (k: nat)
    requires RowPaired(s) && PhasesOk(s) && Possible(s, actions)
    requires InPhase(After(s, actions), i, Clearing) && !InPhase(s, i, Clearing)
    ensures k < |actions| && Possible(s, actions[..k]) && DecidesToClear(After(s, actions[..k]), actions[k], i)
    decreases |actions|
  {
    StepToClearing(s, actions[0], i);
    StepKeepsPaired(s, actions[0]);
    StepKeepsPhases(s, actions[0]);
    if InPhase(Next(s, actions[0]), i, Clearing) {
      k := 0;
    } else {
      var rest := DecidedBefore(Next(s, actions[0]), actions[1..], i);
      k := rest + 1;
      assert actions[..k][0] == actions[0] && actions[..k][1..] == actions[1..][..rest];
    }
  }

  /** Only the end of a revocation takes an access token out of the row. */
  lemma OnlyRevocationClears(s: State, a: Action)
    requires PhasesOk(s) && Enabled(s, a) && s.row.access.Some? && Next(s, a).row.access == None
    ensures match a
            case Revoked(i, _) => s.actors[i].kind.Logout?
            case Fail(i, _) => s.actors[i].kind.Logout?
            case Clear(i) => s.actors[i].kind.IdleJob? && s.actors[i].kind.expiry == s.row.expiry
            case _ => false
  {
  }

  /**
    In every run: an access token leaves the row in the step in which a logout's revocation is answered, or its
    exchange of the refresh token fails; or by an idle job whose revocation GitHub confirmed, or answered after
    rotating the token, or whose refresh token GitHub refused, unless it had found another session.
   */
  lemma RevokedBeforeCleared(actions: seq<Action>, a: Action) returns (k: nat)
    requires Possible(INITIAL, actions) && Enabled(After(INITIAL, actions), a)
    requires After(INITIAL, actions).row.access.Some? && Next(After(INITIAL, actions), a).row.access == None
    ensures var s := After(INITIAL, actions);
            (a.Revoked? && s.actors[a.i].kind.Logout? &&
             (s.actors[a.i].phase.Revoking? || s.actors[a.i].phase.Rotated?)) ||
            (a.Fail? && s.actors[a.i].kind.Logout? && s.actors[a.i].phase.Exchanging?) ||
            (a.Clear? && s.actors[a.i].kind.IdleJob? && s.actors[a.i].kind.expiry == s.row.expiry &&
             k < |actions| && Possible(INITIAL, actions[..k]) &&
             DecidesToClear(After(INITIAL, actions[..k]), actions[k], a.i))
  {
    RunKeepsPhases(INITIAL, actions);
    OnlyRevocationClears(After(INITIAL, actions), a);
    k := 0;
    if a.Clear? {
      k := DecidedBefore(INITIAL, actions, a.i);
    }
  }

  /** A JWT from before a logout cannot log anybody out either. */
  lemma OldJwtEndsNothing(s: State, a: Action)
    requires Enabled(s, a) && a.BeginLogout? && a.jwt != s.row.version
    ensures Next(s, a) == s.(actors := s.actors + [Actor(Logout, Refused)])
  {
  }

  // --- What the protocol does when nothing goes wrong ---

  ghost predicate RunTo(s: State, actions: seq<Action>, end: State) {
    Possible(s, actions) && After(s, actions) == end
  }

  lemma OneStep(s: State, a: Action)
    requires Enabled(s, a)
    ensures RunTo(s, [a], Next(s, a))
  {
    assert [a][1..] == [];
    assert Possible(Next(s, a), []);
  }

  lemma {:induction false} Then(s: State, actions: seq<Action>, a: Action)
    requires Possible(s, actions) && Enabled(After(s, actions), a)
    ensures RunTo(s, actions + [a], Next(After(s, actions), a))
    decreases |actions|
  {
    if actions == [] {
      OneStep(s, a);
      assert [] + [a] == [a];
    } else {
      Then(Next(s, actions[0]), actions[1..], a);
      assert (actions + [a])[0] == actions[0] && (actions + [a])[1..] == actions[1..] + [a];
    }
  }

  /** A login lets its user in, as long as the access token lasts. */
  lemma LoginLetsIn(s: State, pair: Pair, now: int, later: int)
    requires FreshPair(s, pair) && pair.expiresIn.Some?
    requires now <= later && later + EXPIRY_BUFFER < now + pair.expiresIn.value
    ensures Enabled(s, Login(pair, now))
    ensures var s' := Next(s, Login(pair, now));
            Enabled(s', Arrive(s.row.version, later)) && Accepts(s', Arrive(s.row.version, later), s.row.version)
  {
    var s' := Next(s, Login(pair, now));
    AcceptsIff(s', Arrive(s.row.version, later), s.row.version);
  }

  /** A request that finds the access token expired renews it, and is accepted with what it got. */
  lemma ExpiredRequestRenews(s: State, now: int, pair: Pair)
    requires s.row.version in s.jwts && s.row.access.Some? && s.row.refresh.Some? && Expired(s.row.expiry, now)
    requires s.lock == None && FreshPair(s, pair)
    ensures var arrive, proceed, reply :=
              Arrive(s.row.version, now), Proceed(|s.actors|, now), Reply(|s.actors|, pair, now);
            Possible(s, [arrive, proceed]) && Enabled(After(s, [arrive, proceed]), reply) &&
            Sends(Next(s, arrive), proceed) == s.row.refresh &&
            Accepts(After(s, [arrive, proceed]), reply, s.row.version) &&
            Next(After(s, [arrive, proceed]), reply).row.access == Some(pair.access) &&
            Next(After(s, [arrive, proceed]), reply).lock == None
  {
    var arrive, proceed := Arrive(s.row.version, now), Proceed(|s.actors|, now);
    OneStep(s, arrive);
    Then(s, [arrive], proceed);
    assert [arrive] + [proceed] == [arrive, proceed];
    AcceptsIff(After(s, [arrive, proceed]), Reply(|s.actors|, pair, now), s.row.version);
  }

  /** A logout with a lasting access token revokes that token and then clears the row, for good. */
  lemma LogoutRevokesAndClears(s: State, now: int)
    requires s.row.version in s.jwts && s.row.access.Some? && !Expired(s.row.expiry, now)
    ensures var begin, revoked := BeginLogout(s.row.version, now), Revoked(|s.actors|, true);
            Enabled(s, begin) && Next(s, begin).row == s.row && InPhase(Next(s, begin), |s.actors|, Revoking) &&
            Enabled(Next(s, begin), revoked) && EndsSession(Next(s, begin), revoked) &&
            Cleared(Next(Next(s, begin), revoked).row)
  {
  }

  /** With an expired one it renews the pair first, revokes what it got, and never stores it. */
  lemma ExpiredLogoutRotates(s: State, now: int, pair: Pair)
    requires s.row.version in s.jwts && s.row.refresh.Some? && Expired(s.row.expiry, now)
    requires s.lock == None && FreshPair(s, pair)
    ensures var begin, proceed, reply, revoked :=
              BeginLogout(s.row.version, now), Proceed(|s.actors|, now), Reply(|s.actors|, pair, now),
              Revoked(|s.actors|, true);
            Possible(s, [begin, proceed, reply]) && Sends(Next(s, begin), proceed) == s.row.refresh &&
            After(s, [begin, proceed, reply]).row == s.row && Enabled(After(s, [begin, proceed, reply]), revoked) &&
            EndsSession(After(s, [begin, proceed, reply]), revoked) &&
            Next(After(s, [begin, proceed, reply]), revoked).lock == None
  {
    var begin, proceed := BeginLogout(s.row.version, now), Proceed(|s.actors|, now);
    var reply := Reply(|s.actors|, pair, now);
    OneStep(s, begin);
    Then(s, [begin], proceed);
    assert [begin] + [proceed] == [begin, proceed];
    Then(s, [begin, proceed], reply);
    assert [begin, proceed] + [reply] == [begin, proceed, reply];
  }

  /** The idle job revokes a lasting token, and clears the row unless the session changed meanwhile. */
  lemma IdleJobRevokesAndClears(s: State, now: int)
    requires s.row.access.Some? && !Expired(s.row.expiry, now)
    ensures var begin, revoked, clear := BeginIdle(now), Revoked(|s.actors|, true), Clear(|s.actors|);
            Possible(s, [begin, revoked]) && After(s, [begin, revoked]).row == s.row &&
            InPhase(Next(s, begin), |s.actors|, Revoking) && Enabled(After(s, [begin, revoked]), clear) &&
            Next(After(s, [begin, revoked]), clear).row == Row(None, None, None, s.row.version)
  {
    var begin, revoked := BeginIdle(now), Revoked(|s.actors|, true);
    OneStep(s, begin);
    Then(s, [begin], revoked);
    assert [begin] + [revoked] == [begin, revoked];
  }

  // --- The idle job ---

  lemma {:induction false} KindsStay(s: State, actions: seq<Action>, i: ActorId)
    requires Possible(s, actions) && i < |s.actors|
    ensures i < |After(s, actions).actors| && After(s, actions).actors[i].kind == s.actors[i].kind
    decreases |actions|
  {
    if actions != [] {
      KindsStay(Next(s, actions[0]), actions[1..], i);
    }
  }

  /**
    Between the idle job's start and the step in which it changes the row, anything may happen; it
    changes the row only by clearing tokens whose expiry is the one it started with.
   */
  lemma IdleClearsOnlyItsSession(s: State, now: int, actions: seq<Action>, a: Action)
    requires Enabled(s, BeginIdle(now)) && Possible(Next(s, BeginIdle(now)), actions)
    requires Enabled(After(Next(s, BeginIdle(now)), actions), a) && ActsFor(a, |s.actors|)
    ensures var t := After(Next(s, BeginIdle(now)), actions);
            Next(t, a).row != t.row ==>
              a.Clear? && t.row.expiry == s.row.expiry && Next(t, a).row == Row(None, None, None, t.row.version)
  {
    KindsStay(Next(s, BeginIdle(now)), actions, |s.actors|);
  }

  // --- Single-use refresh tokens, within the server process ---

  /** The refresh token the step sends to GitHub. */
  function Sends(s: State, a: Action): Option<Token>
    requires Enabled(s, a)
  {
    if a.Proceed? && Next(s, a).actors[a.i].phase.Exchanging? then Some(Next(s, a).actors[a.i].phase.sent) else None
  }

  predicate StoredIsSpent(s: State) {
    s.row.refresh.Some? && s.row.refresh.value in s.spent
  }

  /**
    The steps that leave a spent refresh token in the row, which still holds the token that was sent: a
    reply without a refresh token of its own, an exchange whose reply never reaches the server, as it is
    lost or its request is cancelled, and a logout cancelled while it revokes the pair it rotated to.
   */
  predicate LeavesSpent(s: State, a: Action)
    requires Enabled(s, a)
  {
    match a
    case Reply(i, pair, _) =>
      s.actors[i].kind.Request? && pair.refresh == None && s.row.access.Some? && StillStored(s, i)
    case Fail(i, failure) => s.actors[i].kind.Request? && failure == ReplyLost(true) && StillStored(s, i)
    case Cancel(i, exchanged) => (exchanged || s.actors[i].phase.Rotated?) && StillStored(s, i)
    case _ => false
  }

  /** The token that the actor sent is the one in the row. */
  predicate StillStored(s: State, i: ActorId)
    requires i < |s.actors|
  {
    match s.actors[i].phase
    case Exchanging(sent) => s.row.refresh == Some(sent)
    case Rotated(sent) => s.row.refresh == Some(sent)
    case _ => false
  }

  predicate UsesLock(s: State, i: ActorId) {
    i < |s.actors| && (s.actors[i].phase.Exchanging? || s.actors[i].phase.Rotated?)
  }

  ghost predicate RowOk(s: State) {
    (s.row.access == None ==> s.row.refresh == None) && (s.row.refresh.Some? ==> s.row.refresh.value in s.issued) &&
    s.spent <= s.issued
  }

  ghost predicate ServerActors(s: State) {
    forall i :: 0 <= i < |s.actors| ==> !s.actors[i].kind.IdleJob? && s.actors[i].phase != Clearing
  }

  ghost predicate LockOk(s: State) {
    (forall i: ActorId :: UsesLock(s, i) <==> s.lock == Some(i)) && ServerActors(s)
  }

  predicate InFlightOk(s: State, holder: Actor) {
    match holder.phase
    case Exchanging(sent) => sent in s.issued && sent !in s.spent
    case Rotated(sent) => sent in s.spent && !holder.kind.Request?
    case _ => true
  }

  ghost predicate HolderOk(s: State) {
    (s.lock.Some? ==> s.lock.value < |s.actors| && InFlightOk(s, s.actors[s.lock.value])) &&
    (StoredIsSpent(s) ==> s.lock.Some? && s.actors[s.lock.value].phase == Rotated(s.row.refresh.value))
  }

  ghost predicate Inv(s: State) {
    RowOk(s) && LockOk(s) && HolderOk(s)
  }

  lemma StepKeepsRow(s: State, a: Action)
    requires Inv(s) && Enabled(s, a) && !a.BeginIdle?
    ensures RowOk(Next(s, a))
  {
    if a.Reply? {
      assert UsesLock(s, a.i);
    }
  }

  lemma StepKeepsServerActors(s: State, a: Action)
    requires ServerActors(s) && Enabled(s, a) && !a.BeginIdle?
    ensures ServerActors(Next(s, a))
  {
    OthersStay(s, a);
  }

  lemma ActorAndLock(s: State, a: Action, i: ActorId)
    requires LockOk(s) && Enabled(s, a) && ActsFor(a, i)
    ensures UsesLock(Next(s, a), i) <==> Next(s, a).lock == Some(i)
    ensures Next(s, a).lock != Some(i) ==> Next(s, a).lock == if s.lock == Some(i) then None else s.lock
    ensures Next(s, a).lock == Some(i) ==> s.lock == None || s.lock == Some(i)
  {
    assert UsesLock(s, i) <==> s.lock == Some(i);
  }

  lemma StepKeepsLock(s: State, a: Action)
    requires LockOk(s) && Enabled(s, a) && !a.BeginIdle?
    ensures LockOk(Next(s, a))
  {
    StepKeepsServerActors(s, a);
    OthersStay(s, a);
    var s' := Next(s, a);
    if i: ActorId :| ActsFor(a, i) {
      ActorAndLock(s, a, i);
      forall j: ActorId ensures UsesLock(s', j) <==> s'.lock == Some(j) {
        assert UsesLock(s, j) <==> s.lock == Some(j);
        assert j != i ==> !ActsFor(a, j);
      }
    } else {
      forall j: ActorId ensures UsesLock(s', j) <==> s'.lock == Some(j) {
        assert UsesLock(s, j) <==> s.lock == Some(j);
      }
    }
  }

  lemma StepKeepsHolder(s: State, a: Action)
    requires Inv(s) && Enabled(s, a) && !a.BeginIdle? && !LeavesSpent(s, a)
    ensures HolderOk(Next(s, a))
  {
    assert s.lock.Some? ==> UsesLock(s, s.lock.value);
    match a
    case Reply(i, _, _) => assert UsesLock(s, i);
    case Fail(i, _) => assert UsesLock(s, i);
    case Revoked(i, _) => assert UsesLock(s, i) || s.actors[i].phase.Revoking?;
    case Cancel(i, _) => assert UsesLock(s, i) || s.lock != Some(i);
    case _ =>
  }

  lemma StepKeepsInv(s: State, a: Action)
    requires Inv(s) && Enabled(s, a) && !a.BeginIdle? && !LeavesSpent(s, a)
    ensures Inv(Next(s, a))
  {
    StepKeepsRow(s, a);
    StepKeepsLock(s, a);
    StepKeepsHolder(s, a);
  }

  /** Exactly those steps break the promise: afterwards the lock is free and the stored token is spent. */
  lemma LeavesSpentExactly(s: State, a: Action)
    requires Inv(s) && Enabled(s, a) && !a.BeginIdle?
    ensures var s' := Next(s, a); LeavesSpent(s, a) <==> (s'.lock == None && StoredIsSpent(s'))
  {
    if LeavesSpent(s, a) {
      assert UsesLock(s, a.i);
    } else {
      StepKeepsInv(s, a);
    }
  }

  /** At every point of the run: whenever no exchange or revocation is in flight, the stored token is unspent. */
  ghost predicate StaysUnspent(s: State, actions: seq<Action>)
    requires Possible(s, actions)
    decreases |actions|
  {
    (s.lock == None ==> !StoredIsSpent(s)) && (actions != [] ==> StaysUnspent(Next(s, actions[0]), actions[1..]))
  }

  ghost predicate NeverLeavesSpent(s: State, actions: seq<Action>)
    requires Possible(s, actions)
    decreases |actions|
  {
    actions != [] ==> !LeavesSpent(s, actions[0]) && NeverLeavesSpent(Next(s, actions[0]), actions[1..])
  }

  predicate WithoutIdleJob(actions: seq<Action>) {
    forall k :: 0 <= k < |actions| ==> !actions[k].BeginIdle?
  }

  /** For any mix of requests, logouts, logins and cancellations of one process. */
  lemma {:induction false} StoredTokenStaysUnspentIff(s: State, actions: seq<Action>)
    requires Inv(s) && Possible(s, actions) && WithoutIdleJob(actions)
    ensures StaysUnspent(s, actions) <==> NeverLeavesSpent(s, actions)
    ensures NeverLeavesSpent(s, actions) ==> Inv(After(s, actions))
    decreases |actions|
  {
    if actions != [] {
      LeavesSpentExactly(s, actions[0]);
      if !LeavesSpent(s, actions[0]) {
        StepKeepsInv(s, actions[0]);
        StoredTokenStaysUnspentIff(Next(s, actions[0]), actions[1..]);
      } else {
        assert !StaysUnspent(Next(s, actions[0]), actions[1..]);
      }
    }
  }

  /** No refresh token is sent again after a successful exchange. */
  lemma NoTokenSentTwice(actions: seq<Action>, a: Action)
    requires Possible(INITIAL, actions) && WithoutIdleJob(actions) && NeverLeavesSpent(INITIAL, actions)
    requires Enabled(After(INITIAL, actions), a)
    ensures var s := After(INITIAL, actions); Sends(s, a).Some? ==> Sends(s, a).value !in s.spent
  {
    StoredTokenStaysUnspentIff(INITIAL, actions);
  }

  /** After one of those steps, the next request that finds the access token expired sends the spent token. */
  lemma SpentTokenIsSentAgain(s: State, a: Action, now: int)
    requires Inv(s) && Enabled(s, a) && LeavesSpent(s, a)
    requires Next(s, a).row.version in s.jwts && Expired(Next(s, a).row.expiry, now)
    ensures var s' := Next(s, a);
            Possible(s', [Arrive(s'.row.version, now), Proceed(|s.actors|, now)]) &&
            Sends(Next(s', Arrive(s'.row.version, now)), Proceed(|s.actors|, now)) == s'.row.refresh &&
            StoredIsSpent(s')
  {
    LeavesSpentExactly(s, a);
    var s' := Next(s, a);
    var arrive, proceed := Arrive(s'.row.version, now), Proceed(|s.actors|, now);
    assert Enabled(s', arrive) && Enabled(Next(s', arrive), proceed);
    assert Possible(Next(Next(s', arrive), proceed), []);
    assert [arrive, proceed][1..] == [proceed] && [proceed][1..] == [];
    assert Possible(Next(s', arrive), [proceed]);
  }
}
