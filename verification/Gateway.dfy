/**
  The realtime gateway (`_serve`) on top of the broker: handshakes, socket writers, revocations,
  deletions and logouts, interleaved in any order.

  A revocation, deletion or logout first commits to the database and then emits, as two steps.
 */
module Gateway {
  import opened Events

  // --- What the writer does with one event ---

  predicate Targeted(e: Event, user: string) {
    e.target == None || e.target == Some(user)
  }

  /** The tab that made the change: user and client id must both match. */
  predicate OwnChange(e: Event, user: string, client: Option<string>) {
    client.Some? && e.actor == Some(user) && e.actorClient == client
  }

  predicate ClosingEvent(topic: Topic, e: Event) {
    topic.WorkspaceTopic? && (e.kind.CollaboratorRevoked? || e.kind.WorkspaceDeleted?)
  }

  /** Taking this event ends the connection of `user`. */
  predicate Terminal(topic: Topic, e: Event, user: string) {
    ClosingEvent(topic, e) && Targeted(e, user)
  }

  predicate Sendable(item: Item, user: string, client: Option<string>) {
    item.Deliver? && Targeted(item.envelope.event, user) && !OwnChange(item.envelope.event, user, client)
  }

  predicate Ends(topic: Topic, item: Item, user: string) {
    item.CloseSignal? || Terminal(topic, item.envelope.event, user)
  }

  function Sent(items: seq<Item>, user: string, client: Option<string>): seq<Envelope> {
    if items == [] then []
    else Sent(items[..|items| - 1], user, client) +
         if Sendable(items[|items| - 1], user, client) then [items[|items| - 1].envelope] else []
  }

  /** What is sent: events for everyone or for this user, but for what this user did in this tab. */
  lemma {:induction false} SentIff(items: seq<Item>, user: string, client: Option<string>, envelope: Envelope)
    ensures envelope in Sent(items, user, client) <==>
            Deliver(envelope) in items &&
            (envelope.event.target == None || envelope.event.target == Some(user)) &&
            !(client.Some? && envelope.event.actor == Some(user) && envelope.event.actorClient == client)
    decreases |items|
  {
    if items != [] {
      var n := |items| - 1;
      SentIff(items[..n], user, client, envelope);
      assert items == items[..n] + [items[n]];
    }
  }

  predicate Numbered(items: seq<Item>) {
    forall i, j :: 0 <= i < j < |items| && items[i].Deliver? && items[j].Deliver? ==>
      items[i].envelope.seqNo < items[j].envelope.seqNo
  }

  predicate InOrder(sent: seq<Envelope>) {
    forall i, j :: 0 <= i < j < |sent| ==> sent[i].seqNo < sent[j].seqNo
  }

  /** They are sent in the order they come in, and once each. */
  lemma {:induction false} SentInOrder(items: seq<Item>, user: string, client: Option<string>)
    requires Numbered(items)
    ensures InOrder(Sent(items, user, client))
    decreases |items|
  {
    if items != [] {
      var n := |items| - 1;
      var before := Sent(items[..n], user, client);
      SentInOrder(items[..n], user, client);
      forall i | 0 <= i < |before| ensures items[n].Deliver? ==> before[i].seqNo < items[n].envelope.seqNo {
        SentIff(items[..n], user, client, before[i]);
        var k :| 0 <= k < n && items[..n][k] == Deliver(before[i]);
      }
    }
  }

  /** What a writer sends of the items it took. */
  ghost predicate SentRightly(items: seq<Item>, user: string, client: Option<string>, sent: seq<Envelope>) {
    (forall envelope :: envelope in sent <==>
       Deliver(envelope) in items &&
       (envelope.event.target == None || envelope.event.target == Some(user)) &&
       !(client.Some? && envelope.event.actor == Some(user) && envelope.event.actorClient == client)) &&
    (Numbered(items) ==> InOrder(sent))
  }

  lemma SentIsRight(items: seq<Item>, user: string, client: Option<string>)
    ensures SentRightly(items, user, client, Sent(items, user, client))
  {
    forall envelope
      ensures envelope in Sent(items, user, client) <==>
              Deliver(envelope) in items &&
              (envelope.event.target == None || envelope.event.target == Some(user)) &&
              !(client.Some? && envelope.event.actor == Some(user) && envelope.event.actorClient == client)
    {
      SentIff(items, user, client, envelope);
    }
    if Numbered(items) {
      SentInOrder(items, user, client);
    }
  }

  /**
    The `writer` of one connection, given what its queue will yield: it takes items up to the
    first one that ends the connection, and sends those meant for this user and tab. A revocation
    of someone else's access neither gets through nor ends it.
   */
  method Writer(items: seq<Item>, topic: Topic, user: string, client: Option<string>)
    returns (sent: seq<Envelope>, taken: nat, code: Option<nat>)
    ensures taken <= |items| && SentRightly(items[..taken], user, client, sent)
    ensures forall i :: 0 <= i < taken ==>
              (i == taken - 1 && code.Some? <==>
                 items[i].CloseSignal? ||
                 (topic.WorkspaceTopic? && items[i].envelope.event.kind in {CollaboratorRevoked, WorkspaceDeleted} &&
                  (items[i].envelope.event.target == None || items[i].envelope.event.target == Some(user))))
    ensures code.None? ==> taken == |items|
    ensures code.Some? ==> taken > 0 && code.value == if items[taken - 1].CloseSignal? then items[taken - 1].code
                           else CLOSE_ACCESS_REVOKED
  {
    sent, taken, code := TakeItems(items, topic, user, client);
    SentIsRight(items[..taken], user, client);
  }

  /** The loop of the writer. */
  method TakeItems(items: seq<Item>, topic: Topic, user: string, client: Option<string>)
    returns (sent: seq<Envelope>, taken: nat, code: Option<nat>)
    ensures taken <= |items| && sent == Sent(items[..taken], user, client)
    ensures forall i :: 0 <= i < taken - 1 ==> !Ends(topic, items[i], user)
    ensures code.None? ==> taken == |items| && forall i :: 0 <= i < taken ==> !Ends(topic, items[i], user)
    ensures code.Some? ==> taken > 0 && Ends(topic, items[taken - 1], user) &&
                           code.value == if items[taken - 1].CloseSignal? then items[taken - 1].code
                               else CLOSE_ACCESS_REVOKED
  {
    sent, taken, code := [], 0, None;
    while taken < |items|
      invariant taken <= |items| && sent == Sent(items[..taken], user, client) && code.None?
      invariant forall i :: 0 <= i < taken ==> !Ends(topic, items[i], user)
    {
      var item := items[taken];
      assert items[..taken + 1][..taken] == items[..taken];
      taken := taken + 1;
      if item.CloseSignal? {
        code := Some(item.code);
        return;
      }
      if Targeted(item.envelope.event, user) {
        if !OwnChange(item.envelope.event, user, client) {
          sent := sent + [item.envelope];
        }
        if ClosingEvent(topic, item.envelope.event) {
          code := Some(CLOSE_ACCESS_REVOKED);
          return;
        }
      }
    }
    assert items[..taken] == items;
  }

  // --- The gateway as a state machine ---

  /** `Checking` lasts from subscribing to the access check; a `Closing` socket takes nothing more. */
  datatype Phase = Checking | Open | Closing(code: nat) | Gone

  /** A connection and its history: what was published to its topic since it subscribed, and what it took. */
  datatype Conn = Conn(topic: Topic, user: string, sessionVersion: nat, phase: Phase, published: seq<Envelope>,
      taken: seq<Envelope>)

  datatype World = World(
    broker: Broker,
    conns: map<QueueId, Conn>,
    access: set<(string, string)>,      // workspace and user with a role
    versions: map<string, nat>,         // users.session_version
    revoking: set<(string, string)>,    // committed, not yet emitted
    deleting: set<string>,
    loggingOut: set<string>)

  datatype Action =
    | Subscribe(q: QueueId, topic: Topic, user: string)   // right after the JWT was checked
    | CheckAccess(q: QueueId)
    | Take(q: QueueId)
    | Leave(q: QueueId)                                   // the client or the JWT is gone, or the socket closed
    | Publish(workspace: string, event: Event, users: set<string>)   // any event but the two below
    | Grant(workspace: string, user: string)
    | RevokeCommit(workspace: string, user: string)
    | RevokeEmit(workspace: string, user: string)
    | DeleteCommit(workspace: string)
    | DeleteEmit(workspace: string, members: set<string>)
    | LogoutCommit(user: string)
    | LogoutEmit(user: string)

  function Version(w: World, user: string): nat {
    if user in w.versions then w.versions[user] else 0
  }

  predicate Live(c: Conn) {
    !c.phase.Gone?
  }

  function TopicOf(w: World): map<QueueId, Topic> {
    map q | q in w.conns && Live(w.conns[q]) :: w.conns[q].topic
  }

  function UserOf(w: World): map<QueueId, string> {
    map q | q in w.conns && Live(w.conns[q]) :: w.conns[q].user
  }

  predicate Enabled(w: World, a: Action) {
    match a
    case Subscribe(q, topic, user) =>
      q !in w.broker.queues && q !in w.conns && (topic.UserTopic? ==> topic.user == user)
    case CheckAccess(q) => q in w.conns && w.conns[q].phase == Checking
    case Take(q) => q in w.conns && w.conns[q].phase == Open && q in w.broker.queues && w.broker.queues[q] != []
    case Leave(q) => q in w.conns && Live(w.conns[q])
    case Publish(_, event, _) => event.kind.OtherEvent?
    case RevokeEmit(workspace, user) => (workspace, user) in w.revoking
    case DeleteEmit(workspace, _) => workspace in w.deleting
    case LogoutEmit(user) => user in w.loggingOut
    case _ => true
  }

  /** Whom an event of a workspace is for, whatever the broker makes of it: its topic, and the users named with it. */
  predicate Hears(topic: Topic, workspace: string, users: set<string>) {
    topic == WorkspaceTopic(workspace) || (topic.UserTopic? && topic.user in users)
  }

  /** A publish by the broker, with the history of every connection whose topic the event is for. */
  function FanOut(w: World, workspace: string, event: Event, users: set<string>): World {
    var envelope := Envelope(event, workspace, w.broker.seqNo + 1);
    w.(broker := Published(w.broker, workspace, event, users),
       conns := map q | q in w.conns :: if Live(w.conns[q]) && Hears(w.conns[q].topic, workspace, users)
           then w.conns[q].(published := w.conns[q].published + [envelope]) else w.conns[q])
  }

  function Drop(w: World, q: QueueId): World
    requires q in w.conns
  {
    w.(broker := Unsubscribed(w.broker, q, w.conns[q].topic, w.conns[q].user),
        conns := w.conns[q := w.conns[q].(phase := Gone)])
  }

  function Next(w: World, a: Action): World
    requires Enabled(w, a)
  {
    match a
    case Subscribe(q, topic, user) =>
      w.(broker := Subscribed(w.broker, q, topic, user),
          conns := w.conns[q := Conn(topic, user, Version(w, user), Checking, [], [])])
    case CheckAccess(q) =>
      var c := w.conns[q];
      if c.topic.WorkspaceTopic? && (c.topic.workspace, c.user) !in w.access then Drop(w, q)
          else w.(conns := w.conns[q := c.(phase := Open)])
    case Take(q) =>
      var c, item, rest := w.conns[q], w.broker.queues[q][0], w.broker.queues[q][1..];
      var c' := if item.CloseSignal? then c.(phase := Closing(item.code))
                else if Terminal(c.topic, item.envelope.event, c.user)
                    then c.(phase := Closing(CLOSE_ACCESS_REVOKED), taken := c.taken + [item.envelope])
                else c.(taken := c.taken + [item.envelope]);
      w.(broker := w.broker.(queues := w.broker.queues[q := rest]), conns := w.conns[q := c'])
    case Leave(q) => Drop(w, q)
    case Publish(workspace, event, users) => FanOut(w, workspace, event, users)
    case Grant(workspace, user) => w.(access := w.access + {(workspace, user)})
    case RevokeCommit(workspace, user) =>
      w.(access := w.access - {(workspace, user)}, revoking := w.revoking + {(workspace, user)})
    case RevokeEmit(workspace, user) =>
      FanOut(w, workspace, Event(CollaboratorRevoked, None, None, Some(user)),
          {user}).(revoking := w.revoking - {(workspace, user)})
    case DeleteCommit(workspace) =>
      w.(access := (set p | p in w.access && p.0 != workspace), deleting := w.deleting + {workspace})
    case DeleteEmit(workspace, members) =>
      FanOut(w, workspace, Event(WorkspaceDeleted, None, None, None), members).(deleting := w.deleting - {workspace})
    case LogoutCommit(user) =>
      w.(versions := w.versions[user := Version(w, user) + 1], loggingOut := w.loggingOut + {user})
    case LogoutEmit(user) => w.(broker := UserClosed(w.broker, user), loggingOut := w.loggingOut - {user})
  }

  const INITIAL := World(Broker(map[], map[], 0, map[]), map[], {}, map[], {}, {}, {})

  // --- Invariants ---

  ghost predicate Increasing(s: seq<Envelope>, bound: nat) {
    (forall i, j :: 0 <= i < j < |s| ==> s[i].seqNo < s[j].seqNo) && (forall i :: 0 <= i < |s| ==> s[i].seqNo <= bound)
  }

  predicate SignalHead(queue: seq<Item>) {
    queue != [] && queue[0].CloseSignal?
  }

  /** The queue holds exactly what was published and not yet taken. */
  ghost predicate Backlog(c: Conn, queue: seq<Item>) {
    |c.published| == |c.taken| + |queue| &&
    forall i :: 0 <= i < |queue| ==> queue[i] == Deliver(c.published[|c.taken| + i])
  }

  /** The client is about to be, or has just been, told to reconnect. */
  predicate ToldToResync(c: Conn, queue: seq<Item>) {
    c.phase == Closing(CLOSE_RESYNC) ||
    (c.phase in {Checking, Open} && queue != [] && queue[0] == CloseSignal(CLOSE_RESYNC))
  }

  /** What is behind a signal was published meanwhile, and only a full queue makes a client reconnect. */
  ghost predicate SignalOk(c: Conn, queue: seq<Item>) {
    (c.phase in {Checking, Open} && SignalHead(queue) ==> |c.taken| + |queue| - 1 <= |c.published|) &&
    (ToldToResync(c, queue) ==> |c.taken| + QUEUE_MAXSIZE <= |c.published|)
  }

  ghost predicate StreamOk(c: Conn, queue: seq<Item>, seqNo: nat) {
    Increasing(c.published, seqNo) && c.taken <= c.published && SignalOk(c, queue) &&
    (c.phase in {Checking, Open} && !SignalHead(queue) ==> Backlog(c, queue))
  }

  /** The connection will close before it gets anything that is published from now on. */
  ghost predicate Doomed(c: Conn, queue: seq<Item>) {
    SignalHead(queue) || exists i :: 0 <= i < |queue| && Ends(c.topic, queue[i], c.user)
  }

  ghost predicate AccessOk(w: World, c: Conn, queue: seq<Item>) {
    c.phase == Open && c.topic.WorkspaceTopic? ==>
      (c.topic.workspace, c.user) in w.access || (c.topic.workspace, c.user) in w.revoking ||
      c.topic.workspace in w.deleting || Doomed(c, queue)
  }

  ghost predicate SessionOk(w: World, c: Conn, queue: seq<Item>) {
    c.phase in {Checking, Open} ==>
        c.sessionVersion == Version(w, c.user) || c.user in w.loggingOut || SignalHead(queue)
  }

  ghost predicate ConnOk(w: World, c: Conn, queue: seq<Item>) {
    StreamOk(c, queue, w.broker.seqNo) && AccessOk(w, c, queue) && SessionOk(w, c, queue)
  }

  ghost predicate Inv(w: World) {
    GoodBroker(w.broker, TopicOf(w), UserOf(w)) && w.conns.Keys <= w.broker.queues.Keys &&
    forall q :: q in w.conns ==> ConnOk(w, w.conns[q], w.broker.queues[q])
  }

  // --- One connection under one step ---

  /** What was about to be emitted for this connection still is. */
  ghost predicate PendingKept(w: World, w': World, c: Conn) {
    c.topic.WorkspaceTopic? ==>
      ((c.topic.workspace, c.user) in w.revoking ==> (c.topic.workspace, c.user) in w'.revoking) &&
      (c.topic.workspace in w.deleting ==> c.topic.workspace in w'.deleting)
  }

  lemma PutKeepsConn(w: World, w': World, c: Conn, queue: seq<Item>, e: Envelope)
    requires ConnOk(w, c, queue) && GoodQueue(queue) && e.seqNo == w.broker.seqNo + 1 == w'.broker.seqNo
    requires w'.access == w.access && w'.versions == w.versions && w'.loggingOut == w.loggingOut
    requires PendingKept(w, w', c) || Terminal(c.topic, e.event, c.user)
    ensures ConnOk(w', c.(published := c.published + [e]), Put(queue, Deliver(e)))
  {
    var c', queue' := c.(published := c.published + [e]), Put(queue, Deliver(e));
    if |queue| < QUEUE_MAXSIZE {
      assert queue'[|queue|] == Deliver(e);
      if Doomed(c, queue) && !SignalHead(queue) {
        var i :| 0 <= i < |queue| && Ends(c.topic, queue[i], c.user);
        assert queue'[i] == queue[i];
      }
      if Terminal(c.topic, e.event, c.user) {
        assert Ends(c'.topic, queue'[|queue|], c'.user);
      }
    }
  }

  lemma TakeKeepsConn(w: World, w': World, c: Conn, queue: seq<Item>)
    requires ConnOk(w, c, queue) && GoodQueue(queue) && queue != [] && c.phase == Open
    requires w'.broker.seqNo == w.broker.seqNo && w'.access == w.access && w'.versions == w.versions
    requires w'.loggingOut == w.loggingOut && w'.revoking == w.revoking && w'.deleting == w.deleting
    ensures var item := queue[0];
            ConnOk(w', if item.CloseSignal? then c.(phase := Closing(item.code))
                       else if Terminal(c.topic, item.envelope.event, c.user)
                           then c.(phase := Closing(CLOSE_ACCESS_REVOKED), taken := c.taken + [item.envelope])
                       else c.(taken := c.taken + [item.envelope]), queue[1..])
    ensures GoodQueue(queue[1..])
  {
    if queue[0].Deliver? {
      assert queue[0] == Deliver(c.published[|c.taken|]);
      assert c.taken + [c.published[|c.taken|]] <= c.published;
      if Doomed(c, queue) && !Terminal(c.topic, queue[0].envelope.event, c.user) {
        var i :| 0 <= i < |queue| && Ends(c.topic, queue[i], c.user);
        assert queue[1..][i - 1] == queue[i];
      }
    }
  }

  // --- Every step keeps the invariant ---

  lemma SameConns(w: World, w': World)
    requires w'.conns.Keys == w.conns.Keys
    requires forall q :: q in w.conns ==>
               w'.conns[q].topic == w.conns[q].topic && w'.conns[q].user == w.conns[q].user &&
               Live(w'.conns[q]) == Live(w.conns[q])
    ensures TopicOf(w') == TopicOf(w) && UserOf(w') == UserOf(w)
  {
  }

  /** A connection that a step does not touch. */
  lemma UntouchedConn(w: World, w': World, c: Conn, queue: seq<Item>)
    requires ConnOk(w, c, queue)
    requires w' == w.(broker := w'.broker, conns := w'.conns) && w'.broker.seqNo == w.broker.seqNo
    ensures ConnOk(w', c, queue)
  {
  }

  lemma FanOutKeepsConn(w: World, w': World, c: Conn, queue: seq<Item>)
    requires ConnOk(w, c, queue) && w'.broker.seqNo == w.broker.seqNo + 1
    requires w'.access == w.access && w'.versions == w.versions && w'.loggingOut == w.loggingOut &&
             (PendingKept(w, w', c) || !Live(c))
    ensures ConnOk(w', c, queue)
  {
  }

  lemma FanOutKeepsInv(w: World, w': World, workspace: string, event: Event, users: set<string>)
    requires Inv(w)
    requires w' == FanOut(w, workspace, event, users).(revoking := w'.revoking, deleting := w'.deleting)
    requires forall q :: q in w.conns ==>
               PendingKept(w, w', w.conns[q]) ||
               (w.conns[q].topic == WorkspaceTopic(workspace) && Terminal(w.conns[q].topic, event, w.conns[q].user))
    ensures Inv(w')
  {
    SameConns(w, w');
    PublishedKeepsGood(w.broker, TopicOf(w), UserOf(w), workspace, event, users);
    forall q | q in w'.conns ensures ConnOk(w', w'.conns[q], w'.broker.queues[q]) {
      FanOutKeepsOne(w, w', workspace, event, users, q);
    }
  }

  /** The broker puts an event on the queues of exactly the live connections it is for. */
  lemma BrokerReachesHearers(w: World, workspace: string, event: Event, users: set<string>, q: QueueId)
    requires GoodBroker(w.broker, TopicOf(w), UserOf(w)) && q in w.conns && q in w.broker.queues
    ensures var w' := FanOut(w, workspace, event, users);
            var envelope := Envelope(event, workspace, w.broker.seqNo + 1);
            q in w'.conns && q in w'.broker.queues &&
            if Live(w.conns[q]) && Hears(w.conns[q].topic, workspace, users)
            then w'.conns[q] == w.conns[q].(published := w.conns[q].published + [envelope]) &&
                 w'.broker.queues[q] == Put(w.broker.queues[q], Deliver(envelope))
            else w'.conns[q] == w.conns[q] && w'.broker.queues[q] == w.broker.queues[q]
  {
    AudienceByTopic(w.broker, TopicOf(w), UserOf(w), workspace, users, q);
  }

  lemma FanOutKeepsOne(w: World, w': World, workspace: string, event: Event, users: set<string>, q: QueueId)
    requires GoodBroker(w.broker, TopicOf(w), UserOf(w))
    requires q in w.conns && q in w.broker.queues && ConnOk(w, w.conns[q], w.broker.queues[q])
    requires w' == FanOut(w, workspace, event, users).(revoking := w'.revoking, deleting := w'.deleting)
    requires PendingKept(w, w', w.conns[q]) ||
             (w.conns[q].topic == WorkspaceTopic(workspace) && Terminal(w.conns[q].topic, event, w.conns[q].user))
    ensures q in w'.conns && q in w'.broker.queues && ConnOk(w', w'.conns[q], w'.broker.queues[q])
  {
    BrokerReachesHearers(w, workspace, event, users, q);
    var c, queue := w.conns[q], w.broker.queues[q];
    if Live(c) && Hears(c.topic, workspace, users) {
      PutKeepsConn(w, w', c, queue, Envelope(event, workspace, w.broker.seqNo + 1));
    } else {
      FanOutKeepsConn(w, w', c, queue);
    }
  }

  lemma DropKeepsInv(w: World, q: QueueId)
    requires Inv(w) && q in w.conns && Live(w.conns[q])
    ensures Inv(Drop(w, q))
  {
    UnsubscribedKeepsGood(w.broker, TopicOf(w), UserOf(w), q);
    assert TopicOf(Drop(w, q)) == TopicOf(w) - {q} && UserOf(Drop(w, q)) == UserOf(w) - {q};
    forall p | p in w.conns ensures ConnOk(Drop(w, q), Drop(w, q).conns[p], w.broker.queues[p]) {
      UntouchedConn(w, Drop(w, q), w.conns[p], w.broker.queues[p]);
    }
  }

  lemma SubscribeTopics(w: World, q: QueueId, topic: Topic, user: string)
    requires q !in w.conns && Enabled(w, Subscribe(q, topic, user))
    ensures var w' := Next(w, Subscribe(q, topic, user));
            TopicOf(w') == TopicOf(w)[q := topic] && UserOf(w') == UserOf(w)[q := user]
  {
  }

  lemma NewConn(w: World, q: QueueId, topic: Topic, user: string)
    requires Enabled(w, Subscribe(q, topic, user))
    ensures var w' := Next(w, Subscribe(q, topic, user)); ConnOk(w', w'.conns[q], w'.broker.queues[q])
  {
  }

  lemma SubscribeKeepsInv(w: World, q: QueueId, topic: Topic, user: string)
    requires Inv(w) && Enabled(w, Subscribe(q, topic, user))
    ensures Inv(Next(w, Subscribe(q, topic, user)))
  {
    var w' := Next(w, Subscribe(q, topic, user));
    SubscribedKeepsGood(w.broker, TopicOf(w), UserOf(w), q, topic, user);
    SubscribeTopics(w, q, topic, user);
    NewConn(w, q, topic, user);
    forall p | p in w.conns ensures ConnOk(w', w'.conns[p], w'.broker.queues[p]) {
      UntouchedConn(w, w', w.conns[p], w.broker.queues[p]);
    }
  }

  lemma TakeKeepsInv(w: World, q: QueueId)
    requires Inv(w) && Enabled(w, Take(q))
    ensures Inv(Next(w, Take(q)))
  {
    var w' := Next(w, Take(q));
    SameConns(w, w');
    TakeKeepsConn(w, w', w.conns[q], w.broker.queues[q]);
    forall p | p in w.conns && p != q ensures ConnOk(w', w'.conns[p], w'.broker.queues[p]) {
      UntouchedConn(w, w', w.conns[p], w.broker.queues[p]);
    }
  }

  lemma LogoutEmitKeepsInv(w: World, user: string)
    requires Inv(w)
    ensures Inv(Next(w.(loggingOut := w.loggingOut + {user}), LogoutEmit(user)))
  {
    var w' := Next(w.(loggingOut := w.loggingOut + {user}), LogoutEmit(user));
    UserClosedKeepsGood(w.broker, TopicOf(w), UserOf(w), user);
    SameConns(w, w');
    forall q | q in w'.conns ensures ConnOk(w', w'.conns[q], w'.broker.queues[q]) {
      assert q in Members(w.broker.byUser, user) <==> q in UserOf(w) && UserOf(w)[q] == user;
    }
  }

  lemma CheckKeepsInv(w: World, q: QueueId)
    requires Inv(w) && Enabled(w, CheckAccess(q))
    ensures Inv(Next(w, CheckAccess(q)))
  {
    var w' := Next(w, CheckAccess(q));
    if w.conns[q].topic.WorkspaceTopic? && (w.conns[q].topic.workspace, w.conns[q].user) !in w.access {
      DropKeepsInv(w, q);
    } else {
      SameConns(w, w');
      forall p | p in w.conns && p != q ensures ConnOk(w', w'.conns[p], w'.broker.queues[p]) {
        UntouchedConn(w, w', w.conns[p], w.broker.queues[p]);
      }
    }
  }

  /** A commit to the database alone: what it takes away is about to be emitted. */
  lemma CommitKeepsInv(w: World, a: Action)
    requires Inv(w) && (a.Grant? || a.RevokeCommit? || a.DeleteCommit? || a.LogoutCommit?)
    ensures Inv(Next(w, a))
  {
    var w' := Next(w, a);
    SameConns(w, w');
    forall q | q in w.conns ensures ConnOk(w', w.conns[q], w.broker.queues[q]) {
      var c, queue := w.conns[q], w.broker.queues[q];
      assert ConnOk(w, c, queue);
      assert StreamOk(c, queue, w'.broker.seqNo);
      assert AccessOk(w', c, queue);
      assert SessionOk(w', c, queue);
    }
  }

  lemma StepKeepsInv(w: World, a: Action)
    requires Inv(w) && Enabled(w, a)
    ensures Inv(Next(w, a))
  {
    match a
    case Subscribe(q, topic, user) => SubscribeKeepsInv(w, q, topic, user);
    case CheckAccess(q) => CheckKeepsInv(w, q);
    case Take(q) => TakeKeepsInv(w, q);
    case Leave(q) => DropKeepsInv(w, q);
    case Publish(workspace, event, users) => FanOutKeepsInv(w, Next(w, a), workspace, event, users);
    case RevokeEmit(workspace, user) =>
      FanOutKeepsInv(w, Next(w, a), workspace, Event(CollaboratorRevoked, None, None, Some(user)), {user});
    case DeleteEmit(workspace, members) =>
      FanOutKeepsInv(w, Next(w, a), workspace, Event(WorkspaceDeleted, None, None, None), members);
    case LogoutEmit(user) =>
      assert w.(loggingOut := w.loggingOut + {user}) == w;
      LogoutEmitKeepsInv(w, user);
    case _ => CommitKeepsInv(w, a);
  }

  // --- All runs ---

  ghost predicate Possible(w: World, actions: seq<Action>)
    decreases |actions|
  {
    actions == [] || (Enabled(w, actions[0]) && Possible(Next(w, actions[0]), actions[1..]))
  }

  ghost function After(w: World, actions: seq<Action>): World
    requires Possible(w, actions)
    decreases |actions|
  {
    if actions == [] then w else After(Next(w, actions[0]), actions[1..])
  }

  lemma {:induction false} RunKeepsInv(w: World, actions: seq<Action>)
    requires Inv(w) && Possible(w, actions)
    ensures Inv(After(w, actions))
    decreases |actions|
  {
    if actions != [] {
      StepKeepsInv(w, actions[0]);
      RunKeepsInv(Next(w, actions[0]), actions[1..]);
    }
  }

  /**
    In every run: queues stay within their bound with a close signal only at the head, and what a
    socket has taken is a gap-free prefix of what was published to its topic since it subscribed,
    in strictly increasing order, so each event exactly once. The rest of it is in the queue,
    unless a signal to close is; and a client is only told to reconnect once it has a full queue to catch up on.
   */
  lemma DeliveryIsGapFree(actions: seq<Action>, q: QueueId)
    requires Possible(INITIAL, actions) && q in After(INITIAL, actions).conns
    ensures var w := After(INITIAL, actions); var c := w.conns[q];
            q in w.broker.queues && GoodQueue(w.broker.queues[q]) &&
            c.taken <= c.published && Increasing(c.published, w.broker.seqNo) &&
            (c.phase == Open ==> SignalHead(w.broker.queues[q]) || Backlog(c, w.broker.queues[q])) &&
            (ToldToResync(c, w.broker.queues[q]) ==> |c.taken| + QUEUE_MAXSIZE <= |c.published|)
  {
    RunKeepsInv(INITIAL, actions);
  }

  /**
    In every run: a workspace connection only survives with access to the workspace, or while the
    revocation or deletion is about to be emitted, or with something in its queue that closes it;
    and any connection only survives a logout while the sockets are about to be told, or with the
    signal at the head of its queue. The registries list exactly the live connections.
   */
  lemma NobodyStaysUnnoticed(actions: seq<Action>, q: QueueId)
    requires Possible(INITIAL, actions) && q in After(INITIAL, actions).conns &&
             q in After(INITIAL, actions).broker.queues
    ensures var w := After(INITIAL, actions); var c := w.conns[q]; var queue := w.broker.queues[q];
            AccessOk(w, c, queue) && SessionOk(w, c, queue) &&
            (Live(c) <==> q in Members(w.broker.streams, c.topic)) &&
            (Live(c) <==> q in Members(w.broker.byUser, c.user)) &&
            (forall t :: t in w.broker.streams ==> w.broker.streams[t] != {}) &&
            (forall u :: u in w.broker.byUser ==> w.broker.byUser[u] != {})
  {
    RunKeepsInv(INITIAL, actions);
    var w := After(INITIAL, actions);
    assert q in Members(w.broker.streams, w.conns[q].topic) <==> q in TopicOf(w) && TopicOf(w)[q] == w.conns[q].topic;
  }

  /** A handshake gets through exactly with access to the workspace; the stream of a user is its own. */
  lemma AccessDecides(w: World, q: QueueId)
    requires Enabled(w, CheckAccess(q))
    ensures var c := w.conns[q];
            Next(w, CheckAccess(q)).conns[q].phase ==
              if c.topic.WorkspaceTopic? ==> (c.topic.workspace, c.user) in w.access then Open else Gone
  {
  }

  /** A user with access who subscribes gets in, with nothing to take yet. */
  lemma SubscriberGetsIn(w: World, q: QueueId, workspace: string, user: string)
    requires Inv(w) && q !in w.conns && q !in w.broker.queues && (workspace, user) in w.access
    ensures var subscribe := Subscribe(q, WorkspaceTopic(workspace), user);
            Enabled(w, subscribe) && Enabled(Next(w, subscribe), CheckAccess(q)) &&
            var w' := Next(Next(w, subscribe), CheckAccess(q));
            Inv(w') && q in w'.broker.queues && w'.broker.queues[q] == [] &&
            w'.conns[q] == Conn(WorkspaceTopic(workspace), user, Version(w, user), Open, [], [])
  {
    SubscribeKeepsInv(w, q, WorkspaceTopic(workspace), user);
    CheckKeepsInv(Next(w, Subscribe(q, WorkspaceTopic(workspace), user)), q);
  }

  /** A connection that is open and has caught up gets what is published next. */
  lemma SubscriberIsServed(w: World, q: QueueId, workspace: string, event: Event, users: set<string>)
    requires Inv(w) && q in w.conns && w.conns[q].topic == WorkspaceTopic(workspace) && w.conns[q].phase == Open
    requires w.broker.queues[q] == [] && event.kind.OtherEvent?
    ensures var publish := Publish(workspace, event, users);
            Enabled(w, publish) && Enabled(Next(w, publish), Take(q)) &&
            Next(Next(w, publish), Take(q)).conns[q].taken ==
              w.conns[q].taken + [Envelope(event, workspace, w.broker.seqNo + 1)]
  {
    BrokerReachesHearers(w, workspace, event, users, q);
  }

  // --- What a revocation, a deletion and a logout come to ---

  /** Every open connection of the user to the workspace is about to close. */
  ghost predicate Outside(w: World, workspace: string, user: string) {
    forall q :: q in w.conns && q in w.broker.queues && w.conns[q].topic == WorkspaceTopic(workspace) &&
                w.conns[q].user == user && w.conns[q].phase == Open ==>
      Doomed(w.conns[q], w.broker.queues[q])
  }

  lemma DoomedAfterFanOut(w: World, w': World, workspace: string, event: Event, users: set<string>, user: string)
    requires Inv(w) && Terminal(WorkspaceTopic(workspace), event, user)
    requires w' == FanOut(w, workspace, event, users).(revoking := w'.revoking, deleting := w'.deleting)
    ensures Outside(w', workspace, user)
  {
    forall q | q in w.conns && w.conns[q].topic == WorkspaceTopic(workspace) && w.conns[q].user == user &&
               w.conns[q].phase == Open
      ensures q in w'.conns && q in w'.broker.queues && Doomed(w'.conns[q], w'.broker.queues[q])
    {
      BrokerReachesHearers(w, workspace, event, users, q);
      var queue := w'.broker.queues[q];
      assert Ends(w'.conns[q].topic, queue[|queue| - 1], user);
    }
  }

  /** A revocation takes the access away; once it was emitted, the user's connections are about to close. */
  lemma RevocationTakesEffect(w: World, workspace: string, user: string)
    requires Inv(w)
    ensures var w1 := Next(w, RevokeCommit(workspace, user));
            Enabled(w1, RevokeEmit(workspace, user)) && w1.access == w.access - {(workspace, user)} &&
            var w2 := Next(w1, RevokeEmit(workspace, user));
            w2.access == w1.access && (workspace, user) !in w2.revoking && Outside(w2, workspace, user)
  {
    var w1 := Next(w, RevokeCommit(workspace, user));
    CommitKeepsInv(w, RevokeCommit(workspace, user));
    DoomedAfterFanOut(w1, Next(w1, RevokeEmit(workspace, user)), workspace,
        Event(CollaboratorRevoked, None, None, Some(user)), {user}, user);
  }

  /** The same for a deletion, and everyone who had access. */
  lemma DeletionTakesEffect(w: World, workspace: string, members: set<string>, user: string)
    requires Inv(w)
    ensures var w1 := Next(w, DeleteCommit(workspace));
            Enabled(w1, DeleteEmit(workspace, members)) &&
            (forall v, u :: (v, u) in w1.access <==> (v, u) in w.access && v != workspace) &&
            var w2 := Next(w1, DeleteEmit(workspace, members));
            w2.access == w1.access && workspace !in w2.deleting && Outside(w2, workspace, user)
  {
    var w1 := Next(w, DeleteCommit(workspace));
    CommitKeepsInv(w, DeleteCommit(workspace));
    DoomedAfterFanOut(w1, Next(w1, DeleteEmit(workspace, members)), workspace,
        Event(WorkspaceDeleted, None, None, None), members, user);
  }

  /** A logout ends the session in the database; then just the signal is left for each connection of the user. */
  lemma LogoutTakesEffect(w: World, user: string, q: QueueId)
    requires Inv(w) && q in w.conns && Live(w.conns[q])
    ensures var w1 := Next(w, LogoutCommit(user));
            Version(w1, user) == Version(w, user) + 1 && Enabled(w1, LogoutEmit(user)) &&
            var w2 := Next(w1, LogoutEmit(user));
            user !in w2.loggingOut && w2.conns == w.conns && q in w2.broker.queues &&
            w2.broker.queues[q] ==
              if w.conns[q].user == user then [CloseSignal(CLOSE_SESSION_EXPIRED)] else w.broker.queues[q]
  {
    assert q in Members(w.broker.byUser, user) <==> q in UserOf(w) && UserOf(w)[q] == user;
  }

  // --- Why a connection is closed ---

  /** The last event taken is the deletion of the workspace, or the revocation of this user's own access to it. */
  ghost predicate LostAccess(c: Conn) {
    c.topic.WorkspaceTopic? && c.taken != [] &&
    var last := c.taken[|c.taken| - 1];
    last.workspace == c.topic.workspace &&
    (last.event.kind.WorkspaceDeleted? || (last.event.kind.CollaboratorRevoked? && last.event.target == Some(c.user)))
  }

  /** Only events of the topic were published, and every revocation names whom it is about. */
  ghost predicate TopicOnly(c: Conn) {
    (c.topic.UserTopic? ==> c.topic.user == c.user) &&
    forall i :: 0 <= i < |c.published| ==>
        (c.topic.WorkspaceTopic? ==> c.published[i].workspace == c.topic.workspace) &&
        (c.published[i].event.kind.CollaboratorRevoked? ==> c.published[i].event.target.Some?)
  }

  ghost predicate CloseOk(w: World, c: Conn, queue: seq<Item>) {
    TopicOnly(c) &&
    (forall i :: 0 <= i < |queue| && queue[i].CloseSignal? ==>
       queue[i].code == CLOSE_RESYNC || (queue[i].code == CLOSE_SESSION_EXPIRED && Version(w, c.user) > 0)) &&
    (c.phase.Closing? ==>
       if c.phase.code == CLOSE_ACCESS_REVOKED then LostAccess(c)
       else c.phase.code == CLOSE_RESYNC || (c.phase.code == CLOSE_SESSION_EXPIRED && Version(w, c.user) > 0))
  }

  ghost predicate CloseInv(w: World) {
    (forall user :: user in w.loggingOut ==> Version(w, user) > 0) &&
    (forall q :: q in w.conns && q in w.broker.queues ==> CloseOk(w, w.conns[q], w.broker.queues[q]))
  }

  lemma FanOutKeepsClose(w: World, w': World, workspace: string, event: Event, users: set<string>, q: QueueId)
    requires Inv(w) && q in w.conns && CloseOk(w, w.conns[q], w.broker.queues[q])
    requires event.kind.CollaboratorRevoked? ==> event.target.Some?
    requires w' == FanOut(w, workspace, event, users).(revoking := w'.revoking, deleting := w'.deleting)
    ensures q in w'.conns && q in w'.broker.queues && CloseOk(w', w'.conns[q], w'.broker.queues[q])
  {
    BrokerReachesHearers(w, workspace, event, users, q);
  }

  lemma TakeKeepsClose(w: World, q: QueueId)
    requires Inv(w) && Enabled(w, Take(q)) && CloseOk(w, w.conns[q], w.broker.queues[q])
    ensures var w' := Next(w, Take(q)); CloseOk(w', w'.conns[q], w'.broker.queues[q])
  {
    var c, queue := w.conns[q], w.broker.queues[q];
    assert ConnOk(w, c, queue);
    if queue[0].Deliver? {
      assert queue[0] == Deliver(c.published[|c.taken|]);
    }
  }

  lemma LogoutEmitKeepsClose(w: World, user: string, q: QueueId)
    requires Inv(w) && CloseInv(w) && Enabled(w, LogoutEmit(user)) && q in w.conns
    ensures var w' := Next(w, LogoutEmit(user));
            q in w'.conns && q in w'.broker.queues && CloseOk(w', w'.conns[q], w'.broker.queues[q])
  {
    assert CloseOk(w, w.conns[q], w.broker.queues[q]);
    assert q in Members(w.broker.byUser, user) <==> q in UserOf(w) && UserOf(w)[q] == user;
  }

  /** A step in which the connection is at most dropped or opened. */
  lemma OtherStepKeepsClose(w: World, a: Action, q: QueueId)
    requires CloseInv(w) && Enabled(w, a) && q in w.conns && q in w.broker.queues && a != Take(q)
    requires !a.Publish? && !a.RevokeEmit? && !a.DeleteEmit? && !a.LogoutEmit?
    ensures var w' := Next(w, a);
            q in w'.conns && q in w'.broker.queues && CloseOk(w', w'.conns[q], w'.broker.queues[q])
  {
    assert CloseOk(w, w.conns[q], w.broker.queues[q]);
    var w' := Next(w, a);
    assert w'.broker.queues[q] == w.broker.queues[q];
    assert w'.conns[q] == w.conns[q].(phase := w'.conns[q].phase);
  }

  lemma StepKeepsOneClose(w: World, a: Action, q: QueueId)
    requires Inv(w) && CloseInv(w) && Enabled(w, a) && q in w.conns
    ensures var w' := Next(w, a);
            q in w'.conns && q in w'.broker.queues && CloseOk(w', w'.conns[q], w'.broker.queues[q])
  {
    if a.Publish? {
      FanOutKeepsClose(w, Next(w, a), a.workspace, a.event, a.users, q);
    } else if a.RevokeEmit? {
      FanOutKeepsClose(w, Next(w, a), a.workspace, Event(CollaboratorRevoked, None, None, Some(a.user)), {a.user}, q);
    } else if a.DeleteEmit? {
      FanOutKeepsClose(w, Next(w, a), a.workspace, Event(WorkspaceDeleted, None, None, None), a.members, q);
    } else if a.LogoutEmit? {
      LogoutEmitKeepsClose(w, a.user, q);
    } else if a == Take(q) {
      TakeKeepsClose(w, q);
    } else {
      OtherStepKeepsClose(w, a, q);
    }
  }

  lemma StepKeepsClose(w: World, a: Action)
    requires Inv(w) && CloseInv(w) && Enabled(w, a)
    ensures CloseInv(Next(w, a))
  {
    var w' := Next(w, a);
    forall q | q in w.conns
      ensures q in w'.conns && q in w'.broker.queues && CloseOk(w', w'.conns[q], w'.broker.queues[q])
    {
      StepKeepsOneClose(w, a, q);
    }
    forall q | q in w'.conns && q !in w.conns ensures CloseOk(w', w'.conns[q], w'.broker.queues[q]) {
      assert a == Subscribe(q, w'.conns[q].topic, w'.conns[q].user);
    }
  }

  lemma {:induction false} RunKeepsClose(w: World, actions: seq<Action>)
    requires Inv(w) && CloseInv(w) && Possible(w, actions)
    ensures CloseInv(After(w, actions)) && Inv(After(w, actions))
    decreases |actions|
  {
    if actions != [] {
      StepKeepsInv(w, actions[0]);
      StepKeepsClose(w, actions[0]);
      RunKeepsClose(Next(w, actions[0]), actions[1..]);
    }
  }

  /**
    In every run, the server closes a socket for one of three reasons: what it took last is the deletion of its
    workspace or the revocation of its own user's access to it; its user has logged out; or a full queue of
    events is outstanding.
   */
  lemma ClosedForAReason(actions: seq<Action>, q: QueueId)
    requires Possible(INITIAL, actions) && q in After(INITIAL, actions).conns &&
             After(INITIAL, actions).conns[q].phase.Closing?
    ensures var w := After(INITIAL, actions); var c := w.conns[q];
            if c.phase.code == CLOSE_ACCESS_REVOKED then LostAccess(c)
            else if c.phase.code == CLOSE_SESSION_EXPIRED then Version(w, c.user) > 0
            else c.phase.code == CLOSE_RESYNC && |c.taken| + QUEUE_MAXSIZE <= |c.published|
  {
    RunKeepsClose(INITIAL, actions);
    var w := After(INITIAL, actions);
    assert ConnOk(w, w.conns[q], w.broker.queues[q]) && CloseOk(w, w.conns[q], w.broker.queues[q]);
  }

  /** In every run, a workspace's stream only carries its own events, and a user's stream is the user's own. */
  lemma StreamsAreKeptApart(actions: seq<Action>, q: QueueId)
    requires Possible(INITIAL, actions) && q in After(INITIAL, actions).conns
    ensures var c := After(INITIAL, actions).conns[q];
            (c.topic.UserTopic? ==> c.topic.user == c.user) &&
            (c.topic.WorkspaceTopic? ==> forall e :: e in c.taken ==> e.workspace == c.topic.workspace)
  {
    RunKeepsClose(INITIAL, actions);
    var w := After(INITIAL, actions);
    assert ConnOk(w, w.conns[q], w.broker.queues[q]) && CloseOk(w, w.conns[q], w.broker.queues[q]);
  }

  // --- A doomed connection does close ---

  /** How many items are before the first one that ends the connection. */
  function DoomDistance(c: Conn, queue: seq<Item>): nat {
    if queue == [] || Ends(c.topic, queue[0], c.user) then 0 else 1 + DoomDistance(c, queue[1..])
  }

  /** Taking brings a doomed connection closer to its end, or ends it; publishing does not push the end away. */
  lemma {:induction false} DoomApproaches(c: Conn, queue: seq<Item>, item: Item)
    requires Doomed(c, queue) && item.Deliver?
    ensures queue != [] && DoomDistance(c, queue) < |queue|
    ensures !Ends(c.topic, queue[0], c.user) ==>
              Doomed(c, queue[1..]) && DoomDistance(c, queue[1..]) + 1 == DoomDistance(c, queue)
    ensures Doomed(c, Put(queue, item)) && DoomDistance(c, Put(queue, item)) <= DoomDistance(c, queue)
    decreases |queue|
  {
    if !Ends(c.topic, queue[0], c.user) {
      var i :| 0 <= i < |queue| && Ends(c.topic, queue[i], c.user);
      assert queue[1..][i - 1] == queue[i];
      DoomedByItem(c, queue[1..], i - 1);
      DoomApproaches(c, queue[1..], item);
      assert (queue + [item])[1..] == queue[1..] + [item];
      assert Ends(c.topic, (queue + [item])[i], c.user);
    } else {
      assert Ends(c.topic, (queue + [item])[0], c.user);
    }
  }

  lemma DoomedByItem(c: Conn, queue: seq<Item>, i: nat)
    requires i < |queue| && Ends(c.topic, queue[i], c.user)
    ensures Doomed(c, queue)
  {
  }
}
