/**
  The scheduler of toolchain installs: one task per toolchain, at most four registered, one install
  body at a time, and failures reported for ten minutes instead of being tried again.

  Times are those of the monotonic clock. A task's end and its done callback are two steps, with
  anything in between. `history` records what happened, for the promises over whole runs.
 */
module Toolchains {
  datatype Option<+T> = None | Some(value: T)

  const RETRY_AFTER := 600.0
  const MAX_INSTALLS := 4

  /** Every ToolchainError is raised with a text. */
  type Message = s: string | s != "" witness "?"

  datatype Error = ToolchainError(message: Message) | OtherError

  datatype Result = Success | Cancelled | Failed(error: Error)

  function MessageOf(error: Error, name: string): Message {
    match error
    case ToolchainError(message) => message
    case OtherError => "Installing the toolchain " + name + " failed"
  }

  datatype Install = Waiting | Running | Ended(result: Result)

  datatype Failure = Failure(at: real, message: Message)

  datatype Event = Started(name: string, at: real) | Recorded(name: string, failure: Failure)

  datatype Answer = Installed | Refused(message: Message) | TooMany | Joined | NewInstall

  predicate Recent(failures: map<string, Failure>, name: string, now: real) {
    name in failures && now - failures[name].at < RETRY_AFTER
  }

  /** The recorded failure no longer keeps the toolchain from being installed. */
  predicate Over(failure: Failure, now: real) {
    now - failure.at >= RETRY_AFTER
  }

  /** No install starts within ten minutes of a recorded failure of its toolchain. */
  ghost predicate NoEarlyStart(history: seq<Event>) {
    forall i, j ::
      0 <= i < j < |history| && history[i].Recorded? && history[j].Started? && history[i].name == history[j].name ==>
      Over(history[i].failure, history[j].at)
  }

  /** A failure is kept while it is recent, and is over once its toolchain is being installed again. */
  ghost predicate FailuresOk(history: seq<Event>, failures: map<string, Failure>, installing: set<string>,
      clock: real) {
    (forall i :: 0 <= i < |history| && history[i].Recorded? ==>
       history[i].failure.at <= clock &&
       (Over(history[i].failure, clock) ||
       (history[i].name in failures && failures[history[i].name] == history[i].failure)) &&
       (history[i].name in installing ==> Over(history[i].failure, clock))) &&
    (forall n :: n in failures ==> Recorded(n, failures[n]) in history)
  }

  /** A new failure replaces the old one, and the expired ones go. */
  lemma RecordKeepsFailures(history: seq<Event>, failures: map<string, Failure>, installing: set<string>, clock: real,
      name: string, failure: Failure)
    requires FailuresOk(history, failures, installing, clock) && name in installing && clock <= failure.at
    ensures FailuresOk(history + [Recorded(name, failure)], Unexpired(failures, failure.at)[name := failure],
            installing - {name}, failure.at)
    ensures forall n :: n in Unexpired(failures, failure.at) ==> !Over(failures[n], failure.at)
  {
    var history' := history + [Recorded(name, failure)];
    assert history'[|history|] == Recorded(name, failure);
    forall i | 0 <= i < |history| && history[i].Recorded? && history[i].name == name
      ensures Over(history[i].failure, failure.at)
    {
    }
    forall n | n in failures ensures Recorded(n, failures[n]) in history' {
      assert Recorded(n, failures[n]) in history;
    }
  }

  /** A success or cancellation forgets the failure. */
  lemma ForgetKeepsFailures(history: seq<Event>, failures: map<string, Failure>, installing: set<string>, clock: real,
      name: string, now: real)
    requires FailuresOk(history, failures, installing, clock) && name in installing && clock <= now
    ensures FailuresOk(history, failures - {name}, installing - {name}, now)
  {
  }

  function Pending(queue: seq<string>, name: string): seq<string> {
    if queue == [] then [] else (if queue[0] == name then [] else [queue[0]]) + Pending(queue[1..], name)
  }

  lemma {:induction false} PendingMembers(queue: seq<string>, name: string)
    requires forall i, j :: 0 <= i < j < |queue| ==> queue[i] != queue[j]
    ensures forall n :: n in Pending(queue, name) <==> n in queue && n != name
    ensures forall i, j :: 0 <= i < j < |Pending(queue, name)| ==> Pending(queue, name)[i] != Pending(queue, name)[j]
    decreases |queue|
  {
    if queue != [] {
      PendingMembers(queue[1..], name);
      assert queue[0] !in queue[1..];
    }
  }

  lemma FewerInstalls(installs: map<string, Install>, name: string)
    requires name in installs
    ensures |installs - {name}| < |installs|
  {
    assert installs == (installs - {name})[name := installs[name]];
  }

  class Scheduler {
    var installs: map<string, Install>
    var failures: map<string, Failure>
    var ready: set<string>             // completely installed
    var queue: seq<string>             // tasks waiting for the install lock
    var holder: Option<string>
    ghost var clock: real
    ghost var history: seq<Event>

    /** The registered installs and their lock. */
    ghost predicate LockOk()
      reads this
    {
      |installs| <= MAX_INSTALLS &&
      (forall n :: n in queue <==> n in installs && installs[n].Waiting?) &&
      (forall i, j :: 0 <= i < j < |queue| ==> queue[i] != queue[j]) &&
      (forall n :: n in installs && installs[n].Running? <==> holder == Some(n))
    }

    ghost predicate Valid()
      reads this
    {
      LockOk() && FailuresOk(history, failures, installs.Keys, clock) && NoEarlyStart(history)
    }

    constructor ()
      ensures Valid() && installs == map[] && failures == map[] && ready == {} && queue == [] && holder == None
      ensures clock == 0.0 && history == []
    {
      installs, failures, ready, queue, holder := map[], map[], {}, [], None;
      clock, history := 0.0, [];
    }

    /** What callers test is whether the text is empty, as it is for a toolchain without a failure. */
    method RecentFailure(name: string, now: real) returns (message: Option<string>)
      ensures Recent(failures, name, now) <==> message.Some? && message.value != ""
      ensures Recent(failures, name, now) ==> message == Some(failures[name].message)
    {
      var failedAt: real, text: string := 0.0, "";
      if name in failures {
        failedAt, text := failures[name].at, failures[name].message;
      }
      message := if now - failedAt < RETRY_AFTER then Some(text) else None;
    }

    /** `_start`: joins the running install of that name, or registers a new one. */
    method Start(name: string, now: real) returns (answer: Answer)
      requires Valid() && now >= clock && !Recent(failures, name, now)
      modifies this`installs, this`queue, this`clock, this`history
      ensures Valid() && clock == now
      ensures answer == if name in old(installs) then Joined
              else if |old(installs)| >= MAX_INSTALLS then TooMany else NewInstall
      ensures answer == NewInstall ==>
                installs == old(installs)[name := Waiting] && queue == old(queue) + [name] &&
                history == old(history) + [Started(name, now)]
      ensures answer != NewInstall ==> installs == old(installs) && queue == old(queue) && history == old(history)
    {
      clock := now;
      if name in installs {
        return Joined;
      }
      if |installs| >= MAX_INSTALLS {
        return TooMany;
      }
      StartAllowed(name, now);
      installs := installs[name := Waiting];
      queue := queue + [name];
      history := history + [Started(name, now)];
      return NewInstall;
    }

    lemma StartAllowed(name: string, now: real)
      requires FailuresOk(history, failures, installs.Keys, clock) && clock == now && !Recent(failures, name, now)
      ensures forall i :: 0 <= i < |history| && history[i].Recorded? && history[i].name == name ==>
                Over(history[i].failure, now)
    {
    }

    /** `ensure`, up to waiting for the install. */
    method Ensure(name: string, now: real) returns (answer: Answer)
      requires Valid() && now >= clock
      modifies this`installs, this`queue, this`clock, this`history
      ensures Valid() && clock == now
      ensures answer == if name in ready then Installed
                        else if Recent(failures, name, now) then Refused(failures[name].message)
                        else if name in old(installs) then Joined
                        else if |old(installs)| >= MAX_INSTALLS then TooMany else NewInstall
      ensures history == if answer == NewInstall then old(history) + [Started(name, now)] else old(history)
    {
      if name in ready {
        clock := now;
        return Installed;
      }
      var failure := RecentFailure(name, now);
      if failure.Some? && failure.value != "" {
        clock := now;
        return Refused(failure.value);
      }
      answer := Start(name, now);
    }

    /** `prepare`: the same, but a full schedule or a recent failure passes in silence. */
    method Prepare(name: string, now: real)
      requires Valid() && now >= clock
      modifies this`installs, this`queue, this`clock, this`history
      ensures Valid() && clock == now
      ensures installs == if name in ready || Recent(failures, name, now) ||
                             name in old(installs) || |old(installs)| >= MAX_INSTALLS
                          then old(installs) else old(installs)[name := Waiting]
    {
      if name !in ready {
        var failure := RecentFailure(name, now);
        if !(failure.Some? && failure.value != "") {
          var _ := Start(name, now);
          return;
        }
      }
      clock := now;
    }

    /** The next waiting task gets the install lock and starts its body. */
    method Turn()
      requires Valid() && holder == None && queue != []
      modifies this`installs, this`queue, this`holder
      ensures Valid() && holder == Some(old(queue)[0]) && installs == old(installs)[old(queue)[0] := Running]
    {
      var name := queue[0];
      assert name in queue;
      assert name !in queue[1..];
      installs := installs[name := Running];
      queue := queue[1..];
      holder := Some(name);
    }

    /** A body ends and gives the lock back. */
    method EndBody(result: Result)
      requires Valid() && holder.Some?
      modifies this`installs, this`holder, this`ready
      ensures Valid() && holder == None && installs == old(installs)[old(holder).value := Ended(result)]
      ensures ready == if result == Success then old(ready) + {old(holder).value} else old(ready)
    {
      var name := holder.value;
      installs := installs[name := Ended(result)];
      holder := None;
      if result == Success {
        ready := ready + {name};
      }
    }

    /** A task is cancelled while it waits for the lock. */
    method CancelWaiting(name: string)
      requires Valid() && name in queue
      modifies this`installs, this`queue
      ensures Valid() && installs == old(installs)[name := Ended(Cancelled)]
    {
      PendingMembers(queue, name);
      installs := installs[name := Ended(Cancelled)];
      queue := Pending(queue, name);
    }

    /** `_finished`, the done callback. */
    method Finished(name: string, now: real)
      requires Valid() && now >= clock && name in installs && installs[name].Ended?
      modifies this`installs, this`failures, this`clock, this`history
      ensures Valid() && clock == now && installs == old(installs) - {name}
      ensures var result := old(installs)[name].result;
              if result.Failed?
              then failures == Unexpired(old(failures), now)[name := Failure(now, MessageOf(result.error, name))] &&
                   history == old(history) + [Recorded(name, Failure(now, MessageOf(result.error, name)))]
              else failures == old(failures) - {name} && history == old(history)
    {
      var result := installs[name].result;
      ghost var installing := installs.Keys;
      FewerInstalls(installs, name);
      installs := installs - {name};
      assert LockOk() && installs.Keys == installing - {name};
      if result.Failed? {
        RecordFailure(name, MessageOf(result.error, name), now, installing);
      } else {
        ForgetKeepsFailures(history, failures, installing, clock, name, now);
        clock := now;
        failures := failures - {name};
      }
    }

    method RecordFailure(name: string, message: Message, now: real, ghost installing: set<string>)
      requires FailuresOk(history, failures, installing, clock) && NoEarlyStart(history) && name in installing &&
               clock <= now
      modifies this`failures, this`clock, this`history
      ensures FailuresOk(history, failures, installing - {name}, clock) && NoEarlyStart(history) && clock == now
      ensures failures == Unexpired(old(failures), now)[name := Failure(now, message)]
      ensures history == old(history) + [Recorded(name, Failure(now, message))]
    {
      RecordKeepsFailures(history, failures, installing, clock, name, Failure(now, message));
      clock := now;
      failures := Unexpired(failures, now);
      failures := failures[name := Failure(now, message)];
      history := history + [Recorded(name, Failure(now, message))];
    }

    /** When a failed toolchain is tried again: for ten minutes its failure is reported instead, and then no longer. */
    method FailAndRetry(name: string, error: Error, failedAt: real, retriedAt: real) returns (answer: Answer)
      requires Valid() && holder == Some(name) && name !in ready && clock <= failedAt <= retriedAt
      modifies this
      ensures Valid()
      ensures if retriedAt - failedAt >= RETRY_AFTER then answer == NewInstall
              else answer.Refused? &&
                   answer.message == if error.ToolchainError? then error.message
                                     else "Installing the toolchain " + name + " failed"
    {
      EndBody(Failed(error));
      FewerInstalls(installs, name);
      Finished(name, failedAt);
      answer := Ensure(name, retriedAt);
    }

    /** At most one install body runs. */
    lemma OneBodyRuns(a: string, b: string)
      requires Valid() && a in installs && installs[a].Running? && b in installs && installs[b].Running?
      ensures a == b
    {
      assert holder == Some(a) && holder == Some(b);
    }

    /** Dropping old failures never drops one that still blocks: while a failure is recent, it is the one reported. */
    lemma RecentFailureIsKept(i: nat)
      requires Valid() && i < |history| && history[i].Recorded? && !Over(history[i].failure, clock)
      ensures Recent(failures, history[i].name, clock) && failures[history[i].name] == history[i].failure &&
              history[i].name !in installs
    {
    }
  }

  function Unexpired(failures: map<string, Failure>, now: real): map<string, Failure> {
    map n | n in failures && now - failures[n].at < RETRY_AFTER :: failures[n]
  }
}
