/**
  `EventBroker`: in-memory fan-out of workspace events to one bounded queue per subscriber.

  The queues are named by an identity and held in one map, as the registries only refer to them.
  Every operation runs without suspending, so each is one atomic step.
 */
module Events {
  const QUEUE_MAXSIZE := 100

  const CLOSE_SESSION_EXPIRED := 4001
  const CLOSE_ACCESS_REVOKED := 4003
  const CLOSE_RESYNC := 4009

  datatype Option<+T> = None | Some(value: T)

  datatype Topic = WorkspaceTopic(workspace: string) | UserTopic(user: string)

  datatype EventType = CollaboratorRevoked | WorkspaceDeleted | OtherEvent(name: string)

  /** An event as handed to `publish`. */
  datatype Event = Event(kind: EventType, actor: Option<string>, actorClient: Option<string>, target: Option<string>)

  /** An event as put on the queues, numbered across all workspaces. */
  datatype Envelope = Envelope(event: Event, workspace: string, seqNo: nat)

  datatype Item = Deliver(envelope: Envelope) | CloseSignal(code: nat)

  type QueueId = nat

  type Registry<K> = map<K, set<QueueId>>

  datatype Broker = Broker(streams: Registry<Topic>, byUser: Registry<string>, seqNo: nat,
      queues: map<QueueId, seq<Item>>)

  function Members<K>(registry: Registry<K>, key: K): set<QueueId> {
    if key in registry then registry[key] else {}
  }

  // --- The operations on values ---

  function Added<K>(registry: Registry<K>, key: K, q: QueueId): Registry<K> {
    registry[key := Members(registry, key) + {q}]
  }

  function Discarded<K>(registry: Registry<K>, key: K, q: QueueId): Registry<K> {
    if Members(registry, key) - {q} != {} then registry[key := Members(registry, key) - {q}]
    else map k | k in registry && k != key :: registry[k]
  }

  /** Putting an item on a queue: a full one is drained for the signal to reconnect. */
  function Put(queue: seq<Item>, item: Item): seq<Item> {
    if |queue| < QUEUE_MAXSIZE then queue + [item] else [CloseSignal(CLOSE_RESYNC)]
  }

  /** The queues an event goes to: the workspace's subscribers and the user streams of `users`. */
  function Audience(b: Broker, workspace: string, users: set<string>): set<QueueId> {
    Members(b.streams, WorkspaceTopic(workspace)) + set u, q | u in users && q in Members(b.streams, UserTopic(u)) :: q
  }

  function Subscribed(b: Broker, q: QueueId, topic: Topic, user: string): Broker {
    Broker(Added(b.streams, topic, q), Added(b.byUser, user, q), b.seqNo, b.queues[q := []])
  }

  function Unsubscribed(b: Broker, q: QueueId, topic: Topic, user: string): Broker {
    Broker(Discarded(b.streams, topic, q), Discarded(b.byUser, user, q), b.seqNo, b.queues)
  }

  function Published(b: Broker, workspace: string, event: Event, users: set<string>): Broker {
    var item := Deliver(Envelope(event, workspace, b.seqNo + 1));
    var audience := Audience(b, workspace, users);
    b.(seqNo := b.seqNo + 1, queues := map q | q in b.queues :: if q in audience then Put(b.queues[q], item)
        else b.queues[q])
  }

  function UserClosed(b: Broker, user: string): Broker {
    b.(queues := map q | q in b.queues :: if q in Members(b.byUser, user) then [CloseSignal(CLOSE_SESSION_EXPIRED)]
        else b.queues[q])
  }

  // --- What a well-kept broker looks like ---

  /** The registry lists every queue of `keyOf` under its key and no other, and holds no empty sets. */
  ghost predicate Indexes<K(!new)>(registry: Registry<K>, keyOf: map<QueueId, K>) {
    (forall k :: k in registry ==> registry[k] != {}) &&
    (forall k, q :: q in Members(registry, k) <==> q in keyOf && keyOf[q] == k)
  }

  /** A queue is within its bound, and a close signal can only be at its head. */
  ghost predicate GoodQueue(queue: seq<Item>) {
    |queue| <= QUEUE_MAXSIZE && forall i :: 0 < i < |queue| ==> queue[i].Deliver?
  }

  ghost predicate GoodQueues(queues: map<QueueId, seq<Item>>) {
    forall q :: q in queues ==> GoodQueue(queues[q])
  }

  /** The broker serves exactly the subscriptions given by `topicOf` and `userOf`. */
  ghost predicate GoodBroker(b: Broker, topicOf: map<QueueId, Topic>, userOf: map<QueueId, string>) {
    Indexes(b.streams, topicOf) && Indexes(b.byUser, userOf) && topicOf.Keys == userOf.Keys <= b.queues.Keys &&
    GoodQueues(b.queues)
  }

  lemma AddedIndexes<K(!new)>(registry: Registry<K>, keyOf: map<QueueId, K>, key: K, q: QueueId)
    requires Indexes(registry, keyOf) && q !in keyOf
    ensures Indexes(Added(registry, key, q), keyOf[q := key])
  {
    forall k
      ensures Members(Added(registry, key, q), k) == if k == key then Members(registry, k) + {q}
              else Members(registry, k)
    {
    }
  }

  lemma DiscardedIndexes<K(!new)>(registry: Registry<K>, keyOf: map<QueueId, K>, key: K, q: QueueId)
    requires Indexes(registry, keyOf) && q in keyOf && keyOf[q] == key
    ensures Indexes(Discarded(registry, key, q), keyOf - {q})
  {
    forall k
      ensures Members(Discarded(registry, key, q), k) == if k == key then Members(registry, k) - {q}
              else Members(registry, k)
    {
    }
  }

  lemma PutKeepsGood(queue: seq<Item>, item: Item)
    requires GoodQueue(queue) && item.Deliver?
    ensures GoodQueue(Put(queue, item))
  {
  }

  lemma SubscribedKeepsGood(b: Broker, topicOf: map<QueueId, Topic>, userOf: map<QueueId, string>, q: QueueId,
      topic: Topic, user: string)
    requires GoodBroker(b, topicOf, userOf) && q !in b.queues
    ensures GoodBroker(Subscribed(b, q, topic, user), topicOf[q := topic], userOf[q := user])
  {
    AddedIndexes(b.streams, topicOf, topic, q);
    AddedIndexes(b.byUser, userOf, user, q);
  }

  lemma UnsubscribedKeepsGood(b: Broker, topicOf: map<QueueId, Topic>, userOf: map<QueueId, string>, q: QueueId)
    requires GoodBroker(b, topicOf, userOf) && q in topicOf
    ensures GoodBroker(Unsubscribed(b, q, topicOf[q], userOf[q]), topicOf - {q}, userOf - {q})
  {
    DiscardedIndexes(b.streams, topicOf, topicOf[q], q);
    DiscardedIndexes(b.byUser, userOf, userOf[q], q);
  }

  lemma PublishedKeepsGood(b: Broker, topicOf: map<QueueId, Topic>, userOf: map<QueueId, string>, workspace: string,
      event: Event, users: set<string>)
    requires GoodBroker(b, topicOf, userOf)
    ensures GoodBroker(Published(b, workspace, event, users), topicOf, userOf)
  {
    forall q | q in b.queues ensures GoodQueue(Put(b.queues[q], Deliver(Envelope(event, workspace, b.seqNo + 1)))) {
      PutKeepsGood(b.queues[q], Deliver(Envelope(event, workspace, b.seqNo + 1)));
    }
  }

  lemma UserClosedKeepsGood(b: Broker, topicOf: map<QueueId, Topic>, userOf: map<QueueId, string>, user: string)
    requires GoodBroker(b, topicOf, userOf)
    ensures GoodBroker(UserClosed(b, user), topicOf, userOf)
  {
  }

  /** An event goes to a subscription exactly when it is its topic's: of the workspace, or of one of the users. */
  lemma AudienceByTopic(b: Broker, topicOf: map<QueueId, Topic>, userOf: map<QueueId, string>, workspace: string,
      users: set<string>, q: QueueId)
    requires GoodBroker(b, topicOf, userOf)
    ensures q in Audience(b, workspace, users) <==>
            q in topicOf &&
            (topicOf[q] == WorkspaceTopic(workspace) || (topicOf[q].UserTopic? && topicOf[q].user in users))
  {
    assert q in Members(b.streams, WorkspaceTopic(workspace)) <==>
             q in topicOf && topicOf[q] == WorkspaceTopic(workspace);
    if q in topicOf && topicOf[q].UserTopic? && topicOf[q].user in users {
      assert q in Members(b.streams, UserTopic(topicOf[q].user));
    }
  }

  /** Both registries list the same queues, so a logout reaches every socket of the user that can get events. */
  lemma SameLiveQueues(b: Broker, topicOf: map<QueueId, Topic>, userOf: map<QueueId, string>, q: QueueId)
    requires GoodBroker(b, topicOf, userOf)
    ensures (exists t :: t in b.streams && q in b.streams[t]) <==> (exists u :: u in b.byUser && q in b.byUser[u])
  {
    if t :| t in b.streams && q in b.streams[t] {
      assert q in Members(b.streams, t);
      assert q in Members(b.byUser, userOf[q]);
    }
    if u :| u in b.byUser && q in b.byUser[u] {
      assert q in Members(b.byUser, u);
      assert q in Members(b.streams, topicOf[q]);
    }
  }

  // --- The class ---

  function PutTo(queues: map<QueueId, seq<Item>>, done: set<QueueId>, item: Item): map<QueueId, seq<Item>> {
    map q | q in queues :: if q in done then Put(queues[q], item) else queues[q]
  }

  lemma PutOneMore(queues: map<QueueId, seq<Item>>, done: set<QueueId>, q: QueueId, item: Item)
    requires q in queues && q !in done
    ensures PutTo(queues, done, item)[q := Put(queues[q], item)] == PutTo(queues, done + {q}, item)
  {
  }

  /** The elements of a set, in some order. */
  method List<T(==)>(s: set<T>) returns (list: seq<T>)
    ensures forall x :: x in list <==> x in s
    ensures forall i, j :: 0 <= i < j < |list| ==> list[i] != list[j]
  {
    list := [];
    var rest := s;
    while rest != {}
      invariant forall x :: x in s <==> x in list || x in rest
      invariant forall x :: x in list ==> x !in rest
      invariant forall i, j :: 0 <= i < j < |list| ==> list[i] != list[j]
    {
      var x :| x in rest;
      list, rest := list + [x], rest - {x};
    }
  }

  class EventBroker {
    var streams: Registry<Topic>
    var byUser: Registry<string>
    var seqNo: nat
    var queues: map<QueueId, seq<Item>>

    // What each live queue is subscribed to, and for whom
    ghost var topicOf: map<QueueId, Topic>
    ghost var userOf: map<QueueId, string>

    ghost function View(): Broker
      reads this
    {
      Broker(streams, byUser, seqNo, queues)
    }

    ghost predicate Valid()
      reads this
    {
      GoodBroker(View(), topicOf, userOf)
    }

    constructor ()
      ensures Valid() && View() == Broker(map[], map[], 0, map[])
    {
      streams, byUser, seqNo, queues := map[], map[], 0, map[];
      topicOf, userOf := map[], map[];
    }

    method Subscribe(topic: Topic, user: string) returns (q: QueueId)
      requires Valid()
      modifies this
      ensures Valid() && q !in old(queues) && View() == Subscribed(old(View()), q, topic, user)
      ensures topicOf == old(topicOf)[q := topic] && userOf == old(userOf)[q := user]
    {
      q := FreshQueue();
      SubscribedKeepsGood(View(), topicOf, userOf, q, topic, user);
      topicOf, userOf := topicOf[q := topic], userOf[q := user];
      queues := queues[q := []];
      streams := streams[topic := Members(streams, topic) + {q}];
      byUser := byUser[user := Members(byUser, user) + {q}];
    }

    /** An identity no queue has had. */
    method FreshQueue() returns (q: QueueId)
      ensures q !in queues
    {
      q := 0;
      var known := queues.Keys;
      ghost var below := {};
      while q in queues
        invariant below <= queues.Keys && (forall p :: p in below <==> 0 <= p < q)
        decreases queues.Keys - below
      {
        below := below + {q};
        q := q + 1;
      }
    }

    method Unsubscribe(topic: Topic, q: QueueId, user: string)
      requires Valid() && q in topicOf && topicOf[q] == topic && userOf[q] == user
      modifies this
      ensures Valid() && View() == Unsubscribed(old(View()), q, topic, user)
      ensures topicOf == old(topicOf) - {q} && userOf == old(userOf) - {q}
    {
      UnsubscribedKeepsGood(View(), topicOf, userOf, q);
      topicOf, userOf := topicOf - {q}, userOf - {q};
      streams := Discard(streams, topic, q);
      byUser := Discard(byUser, user, q);
    }

    static method Discard<K>(registry: Registry<K>, key: K, q: QueueId) returns (r: Registry<K>)
      requires key in registry ==> registry[key] != {}
      ensures r == Discarded(registry, key, q)
    {
      if Members(registry, key) == {} {
        return registry;
      }
      r := registry[key := registry[key] - {q}];
      if r[key] == {} {
        r := map k | k in r && k != key :: r[k];
      }
    }

    /** Drain the backlog so the signal fits, then enqueue it. */
    method Signal(q: QueueId, code: nat)
      requires q in queues
      modifies this`queues
      ensures queues == old(queues)[q := [CloseSignal(code)]]
    {
      while queues[q] != []
        invariant q in queues && queues == old(queues)[q := queues[q]]
        decreases |queues[q]|
      {
        queues := queues[q := queues[q][1..]];
      }
      queues := queues[q := [CloseSignal(code)]];
    }

    method Publish(workspace: string, event: Event, users: set<string>)
      requires Valid()
      modifies this
      ensures Valid() && View() == Published(old(View()), workspace, event, users) && topicOf == old(topicOf) &&
              userOf == old(userOf)
    {
      PublishedKeepsGood(View(), topicOf, userOf, workspace, event, users);
      ghost var before := View();
      seqNo := seqNo + 1;
      var targets := Targets(workspace, users);
      PutAll(targets, Deliver(Envelope(event, workspace, seqNo)));
      assert queues == Published(before, workspace, event, users).queues;
    }

    /** The fan-out loop of `publish`. */
    method PutAll(targets: seq<QueueId>, item: Item)
      requires forall q :: q in targets ==> q in queues
      requires forall i, j :: 0 <= i < j < |targets| ==> targets[i] != targets[j]
      modifies this`queues
      ensures queues == map q | q in old(queues) :: if q in targets then Put(old(queues)[q], item) else old(queues)[q]
    {
      ghost var done: set<QueueId> := {};
      for i := 0 to |targets|
        invariant forall q :: q in done <==> q in targets[..i]
        invariant queues == PutTo(old(queues), done, item)
      {
        assert targets[..i + 1] == targets[..i] + [targets[i]];
        PutOneMore(old(queues), done, targets[i], item);
        PutOne(targets[i], item);
        done := done + {targets[i]};
      }
      assert targets[..|targets|] == targets;
    }

    method PutOne(q: QueueId, item: Item)
      requires q in queues
      modifies this`queues
      ensures queues == old(queues)[q := Put(old(queues)[q], item)]
    {
      if |queues[q]| < QUEUE_MAXSIZE {
        queues := queues[q := queues[q] + [item]];
      } else {
        Signal(q, CLOSE_RESYNC);
      }
    }

    /** The queues of a publish, collected stream by stream: no queue comes twice. */
    method Targets(workspace: string, users: set<string>) returns (targets: seq<QueueId>)
      requires Indexes(streams, topicOf) && topicOf.Keys <= queues.Keys
      ensures forall q :: q in targets <==> q in Audience(Broker(streams, byUser, seqNo, queues), workspace, users)
      ensures forall q :: q in targets ==> q in queues
      ensures forall i, j :: 0 <= i < j < |targets| ==> targets[i] != targets[j]
    {
      targets := List(Members(streams, WorkspaceTopic(workspace)));
      var names := List(users);
      var i := 0;
      while i < |names|
        invariant i <= |names|
        invariant forall q :: q in targets <==>
                    (q in topicOf &&
                    (topicOf[q] == WorkspaceTopic(workspace) ||
                    (topicOf[q].UserTopic? && topicOf[q].user in names[..i])))
        invariant forall i, j :: 0 <= i < j < |targets| ==> targets[i] != targets[j]
      {
        var more := List(Members(streams, UserTopic(names[i])));
        assert forall q :: q in more <==> q in topicOf && topicOf[q] == UserTopic(names[i]);
        assert names[i] !in names[..i];
        assert names[..i + 1] == names[..i] + [names[i]];
        AppendDistinct(targets, more);
        targets := targets + more;
        i := i + 1;
      }
      assert names[..|names|] == names;
      forall q ensures q in targets <==> q in Audience(Broker(streams, byUser, seqNo, queues), workspace, users) {
        assert q in Members(streams, WorkspaceTopic(workspace)) <==>
                 q in topicOf && topicOf[q] == WorkspaceTopic(workspace);
        if q in topicOf && topicOf[q].UserTopic? {
          assert q in Members(streams, UserTopic(topicOf[q].user));
        }
      }
    }

    /** Tell every socket of a user to close (logout). */
    method CloseUserConnections(user: string) returns (count: nat)
      requires Valid()
      modifies this
      ensures Valid() && View() == UserClosed(old(View()), user) && topicOf == old(topicOf) && userOf == old(userOf)
      ensures count == |Members(old(byUser), user)|
    {
      UserClosedKeepsGood(View(), topicOf, userOf, user);
      var targets := List(Members(byUser, user));
      ListSize(Members(byUser, user), targets);
      SignalAll(targets, CLOSE_SESSION_EXPIRED);
      return |targets|;
    }

    method SignalAll(targets: seq<QueueId>, code: nat)
      requires forall q :: q in targets ==> q in queues
      modifies this`queues
      ensures queues == map q | q in old(queues) :: if q in targets then [CloseSignal(code)] else old(queues)[q]
    {
      var i := 0;
      while i < |targets|
        invariant i <= |targets| && queues.Keys == old(queues).Keys
        invariant forall q :: q in queues ==>
                    queues[q] == if q in targets[..i] then [CloseSignal(code)] else old(queues)[q]
      {
        Signal(targets[i], code);
        assert targets[..i + 1] == targets[..i] + [targets[i]];
        i := i + 1;
      }
      assert targets[..|targets|] == targets;
    }
  }

  lemma AppendDistinct<T>(a: seq<T>, b: seq<T>)
    requires forall i, j :: 0 <= i < j < |a| ==> a[i] != a[j]
    requires forall i, j :: 0 <= i < j < |b| ==> b[i] != b[j]
    requires forall x :: x in a ==> x !in b
    ensures var c := a + b; forall i, j :: 0 <= i < j < |c| ==> c[i] != c[j]
  {
    var c := a + b;
    forall i, j | 0 <= i < j < |c| ensures c[i] != c[j] {
      if i < |a| <= j {
        assert c[i] in a && c[j] in b;
      }
    }
  }

  lemma {:induction false} ListSize<T>(s: set<T>, list: seq<T>)
    requires forall x :: x in list <==> x in s
    requires forall i, j :: 0 <= i < j < |list| ==> list[i] != list[j]
    ensures |list| == |s|
    decreases |list|
  {
    if list == [] {
      assert s == {};
    } else {
      var x := list[0];
      assert forall y :: y in list[1..] <==> y in s - {x};
      ListSize(s - {x}, list[1..]);
    }
  }
}
