/**
  `KeyedLocks`: one asyncio lock per key, counted by its users and evicted once idle.

  Lock objects are named by an identity. A task suspends only while it waits for the lock and
  while it holds it, so entering, acquiring and leaving are atomic steps.
 */
module KeyedLocks {
  type LockId = nat
  type TaskId = nat

  datatype Entry = Entry(lock: LockId, users: nat)

  /** The `_locks` dictionary; identities from `next` on are unused. */
  datatype Table = Table(locks: map<string, Entry>, next: LockId)

  // --- The dictionary ---

  function LockFor(t: Table, key: string): LockId {
    if key in t.locks then t.locks[key].lock else t.next
  }

  function Entered(t: Table, key: string): Table {
    if key in t.locks then t.(locks := t.locks[key := Entry(t.locks[key].lock, t.locks[key].users + 1)])
    else Table(t.locks[key := Entry(t.next, 1)], t.next + 1)
  }

  function Left(t: Table, key: string): Table
    requires key in t.locks
  {
    if t.locks[key].users <= 1 then t.(locks := map k | k in t.locks && k != key :: t.locks[k])
    else t.(locks := t.locks[key := Entry(t.locks[key].lock, t.locks[key].users - 1)])
  }

  class Locks {
    var locks: map<string, Entry>
    var next: LockId

    ghost function View(): Table
      reads this
    {
      Table(locks, next)
    }

    constructor ()
      ensures View() == Table(map[], 0)
    {
      locks, next := map[], 0;
    }

    /** Up to the `acquire`: the user is counted before it waits. */
    method Enter(key: string) returns (lock: LockId)
      modifies this
      ensures View() == Entered(old(View()), key) && lock == LockFor(old(View()), key)
    {
      var users := 0;
      if key in locks {
        lock, users := locks[key].lock, locks[key].users;
      } else {
        lock, next := next, next + 1;
      }
      locks := locks[key := Entry(lock, users + 1)];
    }

    /** The outer `finally`, also when the acquire was cancelled; the caller is still counted. */
    method Leave(key: string, lock: LockId)
      requires key in locks && locks[key].lock == lock
      modifies this
      ensures View() == Left(old(View()), key)
    {
      var users := locks[key].users;
      if users <= 1 {
        locks := map k | k in locks && k != key :: locks[k];
      } else {
        locks := locks[key := Entry(lock, users - 1)];
      }
    }
  }

  // --- Tasks using the locks ---

  /** A task inside `async with locks(key)`, waiting for its lock object or holding it. */
  datatype Use = Use(key: string, lock: LockId, holding: bool)

  datatype State = State(table: Table, holder: map<LockId, TaskId>, tasks: map<TaskId, Use>)

  datatype Action =
    | Arrive(task: TaskId, key: string)
    | Acquire(task: TaskId)
    | Finish(task: TaskId)              // the body ends, raises or is cancelled
    | CancelWaiting(task: TaskId)       // the request is cancelled while queued

  predicate Enabled(s: State, a: Action) {
    match a
    case Arrive(t, key) => t !in s.tasks
    case Acquire(t) => t in s.tasks && !s.tasks[t].holding && s.tasks[t].lock !in s.holder
    case Finish(t) => t in s.tasks && s.tasks[t].holding && s.tasks[t].key in s.table.locks
    case CancelWaiting(t) => t in s.tasks && !s.tasks[t].holding && s.tasks[t].key in s.table.locks
  }

  function Next(s: State, a: Action): State
    requires Enabled(s, a)
  {
    match a
    case Arrive(t, key) => State(Entered(s.table, key), s.holder, s.tasks[t := Use(key, LockFor(s.table, key), false)])
    case Acquire(t) => s.(holder := s.holder[s.tasks[t].lock := t], tasks := s.tasks[t := s.tasks[t].(holding := true)])
    case Finish(t) => State(Left(s.table, s.tasks[t].key), s.holder - {s.tasks[t].lock}, s.tasks - {t})
    case CancelWaiting(t) => State(Left(s.table, s.tasks[t].key), s.holder, s.tasks - {t})
  }

  function Users(s: State, key: string): set<TaskId> {
    set t | t in s.tasks && s.tasks[t].key == key
  }

  ghost predicate TableOk(t: Table) {
    (forall k :: k in t.locks ==> t.locks[k].lock < t.next && t.locks[k].users > 0) &&
    (forall j, k :: j in t.locks && k in t.locks && j != k ==> t.locks[j].lock != t.locks[k].lock)
  }

  /** Users of a key share one lock object, and its count is the number of them: holders and waiters. */
  ghost predicate UsesOk(s: State) {
    (forall t :: t in s.tasks ==>
        s.tasks[t].key in s.table.locks && s.table.locks[s.tasks[t].key].lock == s.tasks[t].lock) &&
    (forall k :: k in s.table.locks ==> s.table.locks[k].users == |Users(s, k)|)
  }

  ghost predicate HoldersOk(s: State) {
    (forall l :: l in s.holder ==>
        s.holder[l] in s.tasks && s.tasks[s.holder[l]].holding && s.tasks[s.holder[l]].lock == l) &&
    (forall t :: t in s.tasks && s.tasks[t].holding ==> s.tasks[t].lock in s.holder && s.holder[s.tasks[t].lock] == t)
  }

  ghost predicate Inv(s: State) {
    TableOk(s.table) && UsesOk(s) && HoldersOk(s)
  }

  const INITIAL := State(Table(map[], 0), map[], map[])

  lemma EnteredTable(t: Table, key: string)
    requires TableOk(t)
    ensures TableOk(Entered(t, key)) && Entered(t, key).locks.Keys == t.locks.Keys + {key}
    ensures Entered(t, key).locks[key].lock == LockFor(t, key)
    ensures Entered(t, key).locks[key].users == (if key in t.locks then t.locks[key].users else 0) + 1
    ensures forall k :: k in t.locks && k != key ==> Entered(t, key).locks[k] == t.locks[k]
  {
  }

  lemma LeftTable(t: Table, key: string)
    requires TableOk(t) && key in t.locks
    ensures TableOk(Left(t, key))
    ensures Left(t, key).locks.Keys == if t.locks[key].users == 1 then t.locks.Keys - {key} else t.locks.Keys
    ensures t.locks[key].users > 1 ==> Left(t, key).locks[key] == Entry(t.locks[key].lock, t.locks[key].users - 1)
    ensures forall k :: k in t.locks && k != key ==> Left(t, key).locks[k] == t.locks[k]
  {
  }

  lemma UsersOfIdleKey(s: State, key: string)
    requires UsesOk(s) && key !in s.table.locks
    ensures Users(s, key) == {}
  {
    if t :| t in Users(s, key) {
      assert false;
    }
  }

  lemma UsersAfterArrive(s: State, t: TaskId, key: string, k: string)
    requires t !in s.tasks
    ensures Users(Next(s, Arrive(t, key)), k) == if k == key then Users(s, k) + {t} else Users(s, k)
  {
  }

  lemma ArriveCounts(s: State, t: TaskId, key: string, k: string)
    requires TableOk(s.table) && UsesOk(s) && t !in s.tasks && k in Next(s, Arrive(t, key)).table.locks
    ensures Next(s, Arrive(t, key)).table.locks[k].users == |Users(Next(s, Arrive(t, key)), k)|
  {
    EnteredTable(s.table, key);
    UsersAfterArrive(s, t, key, k);
    if key !in s.table.locks { UsersOfIdleKey(s, key); }
    assert t !in Users(s, key);
  }

  lemma ArriveKeepsUses(s: State, t: TaskId, key: string)
    requires TableOk(s.table) && UsesOk(s) && t !in s.tasks
    ensures UsesOk(Next(s, Arrive(t, key)))
  {
    var s' := Next(s, Arrive(t, key));
    forall k | k in s'.table.locks ensures s'.table.locks[k].users == |Users(s', k)| {
      ArriveCounts(s, t, key, k);
    }
    EnteredTable(s.table, key);
  }

  /** The tasks after one has left. */
  function WithoutTask(s: State, t: TaskId, holder: map<LockId, TaskId>): State
    requires t in s.tasks && s.tasks[t].key in s.table.locks
  {
    State(Left(s.table, s.tasks[t].key), holder, s.tasks - {t})
  }

  lemma LeaveCounts(s: State, t: TaskId, holder: map<LockId, TaskId>, k: string)
    requires TableOk(s.table) && UsesOk(s) && t in s.tasks && k in s.table.locks
    ensures var s' := WithoutTask(s, t, holder);
            k in s'.table.locks <==> Users(s', k) != {}
    ensures var s' := WithoutTask(s, t, holder);
            k in s'.table.locks ==>
                s'.table.locks[k].users == |Users(s', k)| && s'.table.locks[k].lock == s.table.locks[k].lock
  {
    var key := s.tasks[t].key;
    var s' := WithoutTask(s, t, holder);
    LeftTable(s.table, key);
    if k == key {
      assert Users(s', key) == Users(s, key) - {t} && t in Users(s, key);
      assert |Users(s, key) - {t}| == s.table.locks[key].users - 1;
    } else {
      assert Users(s', k) == Users(s, k);
    }
  }

  lemma LeaveKeepsUses(s: State, t: TaskId, holder: map<LockId, TaskId>)
    requires TableOk(s.table) && UsesOk(s) && t in s.tasks
    ensures TableOk(WithoutTask(s, t, holder).table) && UsesOk(WithoutTask(s, t, holder))
  {
    var s' := WithoutTask(s, t, holder);
    LeftTable(s.table, s.tasks[t].key);
    forall k | k in s'.table.locks ensures s'.table.locks[k].users == |Users(s', k)| {
      LeaveCounts(s, t, holder, k);
    }
    forall u | u in s'.tasks
      ensures s'.tasks[u].key in s'.table.locks && s'.table.locks[s'.tasks[u].key].lock == s'.tasks[u].lock
    {
      LeaveCounts(s, t, holder, s.tasks[u].key);
      assert u in Users(s', s.tasks[u].key);
    }
  }

  lemma AcquireKeepsUses(s: State, t: TaskId)
    requires UsesOk(s) && Enabled(s, Acquire(t))
    ensures UsesOk(Next(s, Acquire(t)))
  {
    var s' := Next(s, Acquire(t));
    forall k | k in s.table.locks ensures Users(s', k) == Users(s, k) {
    }
  }

  lemma AcquireKeepsHolders(s: State, t: TaskId)
    requires HoldersOk(s) && Enabled(s, Acquire(t))
    ensures HoldersOk(Next(s, Acquire(t)))
  {
  }

  lemma AcquireKeepsInv(s: State, t: TaskId)
    requires Inv(s) && Enabled(s, Acquire(t))
    ensures Inv(Next(s, Acquire(t)))
  {
    AcquireKeepsUses(s, t);
    AcquireKeepsHolders(s, t);
  }

  lemma ArriveKeepsInv(s: State, t: TaskId, key: string)
    requires Inv(s) && Enabled(s, Arrive(t, key))
    ensures Inv(Next(s, Arrive(t, key)))
  {
    EnteredTable(s.table, key);
    ArriveKeepsUses(s, t, key);
  }

  lemma LeaveKeepsInv(s: State, a: Action)
    requires Inv(s) && Enabled(s, a) && (a.Finish? || a.CancelWaiting?)
    ensures Inv(Next(s, a))
  {
    LeaveKeepsUses(s, a.task, Next(s, a).holder);
  }

  lemma StepKeepsInv(s: State, a: Action)
    requires Inv(s) && Enabled(s, a)
    ensures Inv(Next(s, a))
  {
    match a
    case Arrive(t, key) => ArriveKeepsInv(s, t, key);
    case Acquire(t) => AcquireKeepsInv(s, t);
    case Finish(_) => LeaveKeepsInv(s, a);
    case CancelWaiting(_) => LeaveKeepsInv(s, a);
  }

  ghost predicate Possible(s: State, actions: seq<Action>)
    decreases |actions|
  {
    actions == [] || (Enabled(s, actions[0]) && Possible(Next(s, actions[0]), actions[1..]))
  }

  ghost function After(s: State, actions: seq<Action>): State
    requires Possible(s, actions)
    decreases |actions|
  {
    if actions == [] then s else After(Next(s, actions[0]), actions[1..])
  }

  lemma {:induction false} RunKeepsInv(s: State, actions: seq<Action>)
    requires Inv(s) && Possible(s, actions)
    ensures Inv(After(s, actions))
    decreases |actions|
  {
    if actions != [] {
      StepKeepsInv(s, actions[0]);
      RunKeepsInv(Next(s, actions[0]), actions[1..]);
    }
  }

  /**
    In every run of arrivals, acquisitions, endings and cancellations: no two tasks hold the lock
    of a key, all users of a key have the same lock object, an entry counts its holders and
    waiters, and exists exactly while there are any.
   */
  lemma KeyedMutualExclusion(actions: seq<Action>, key: string)
    requires Possible(INITIAL, actions)
    ensures var s := After(INITIAL, actions);
            (forall t, u :: t in Users(s, key) && u in Users(s, key) ==>
               s.tasks[t].lock == s.tasks[u].lock && (s.tasks[t].holding && s.tasks[u].holding ==> t == u)) &&
            (key in s.table.locks <==> Users(s, key) != {}) &&
            (key in s.table.locks ==> s.table.locks[key].users == |Users(s, key)|)
  {
    RunKeepsInv(INITIAL, actions);
  }

  /** Every task that is inside can leave: its entry is there to be counted down. */
  lemma CanAlwaysLeave(actions: seq<Action>, t: TaskId)
    requires Possible(INITIAL, actions) && t in After(INITIAL, actions).tasks
    ensures var s := After(INITIAL, actions); Enabled(s, Finish(t)) || Enabled(s, CancelWaiting(t))
  {
    RunKeepsInv(INITIAL, actions);
  }
}
