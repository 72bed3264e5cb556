/**
 * pubsub/my_pubsub.go as a state machine. The lock of the bus and the lock of each queue are taken and
 * given back in steps of their own, so that publishers, subscribers, leavers and closers interleave freely.
 */
module PubSubState {
  import opened Common
  import opened PubSubPipe

  /** A subject's subscribers, and the publishers that hold its lock for reading. */
  datatype Queue = Queue(subs: seq<nat>, readers: set<nat>)

  datatype Phase =
    | Entering(subj: Subject)             // Subscribe: has seen no cancellation
    | Starting(subj: Subject)             // Subscribe: the queue exists
    | Started(subj: Subject, i: nat)      // Subscribe: goroutines run
    | Adding(subj: Subject, i: nat)       // Subscribe: holds the bus lock again
    | Publishing(subj: Subject)           // Publish: has seen no cancellation
    | Locked(subj: Subject)               // Publish: reads the map under the bus lock
    | Sending(subj: Subject, k: nat)      // Publish: `k` subscribers served, under the queue lock
    | Leaving(i: nat)                     // Unsubscribe: holds the bus lock
    | Closing                             // Close: context cancelled
    | Shutting                            // Close: holds the bus lock
    | Waiting                             // Close: waits for the goroutines
    | Waited                              // Close: the goroutines have ended
    | Refused | Done | ClosedInTime | ClosedLate

  datatype State = State(
    writer: Option<nat>, readers: set<nat>, // the bus lock
    cancelled: bool, closed: bool,          // closed: the map of subjects is nil
    queues: map<Subject, Queue>, shut: set<Subject>, // shut: subjects whose channels Close has closed
    subs: seq<Sub>, calls: map<nat, Phase>)

  datatype Event =
    | BeginSubscribe(c: nat, subj: Subject) | EnsureQueue(c: nat) | Start(c: nat) | LockToAdd(c: nat) | Add(c: nat)
    | BeginPublish(c: nat, subj: Subject) | LockToRead(c: nat) | LockQueue(c: nat) | SendNext(c: nat)
    | EndPublish(c: nat)
    | BeginUnsubscribe(c: nat, i: nat) | Leave(c: nat)
    | BeginClose(c: nat) | LockToClose(c: nat) | CloseQueue(c: nat, subj: Subject) | EndClose(c: nat)
    | Wait(c: nat) | ReturnNil(c: nat) | ReturnLate(c: nat)
    | Work(i: nat, move: Move)

  /** The steps of Subscribe, and those of Publish; the others leave or close. */
  predicate OfSubscribe(e: Event) { e.BeginSubscribe? || e.EnsureQueue? || e.Start? || e.LockToAdd? || e.Add? }

  predicate OfPublish(e: Event) { e.BeginPublish? || e.LockToRead? || e.LockQueue? || e.SendNext? || e.EndPublish? }

  function Initial(): State { State(None, {}, false, false, map[], {}, [], map[]) }

  predicate BusFree(s: State) { s.writer == None && s.readers == {} }

  predicate Enabled(s: State, e: Event) {
    match e
    case BeginSubscribe(c, subj) => c !in s.calls
    case EnsureQueue(c) => c in s.calls && s.calls[c].Entering? && BusFree(s)
    case Start(c) => c in s.calls && s.calls[c].Starting?
    case LockToAdd(c) => c in s.calls && s.calls[c].Started? && BusFree(s)
    case Add(c) => c in s.calls && s.calls[c].Adding? && s.calls[c].i < |s.subs| &&
      (s.closed || Unread(s, s.calls[c].subj))
    case BeginPublish(c, subj) => c !in s.calls
    case LockToRead(c) => c in s.calls && s.calls[c].Publishing? && s.writer == None
    case LockQueue(c) => c in s.calls && s.calls[c].Locked?
    case SendNext(c) => c in s.calls && s.calls[c].Sending? && CanSend(s, s.calls[c].subj, s.calls[c].k)
    case EndPublish(c) => c in s.calls && s.calls[c].Sending? && AllServed(s, s.calls[c].subj, s.calls[c].k)
    case BeginUnsubscribe(c, i) => c !in s.calls && BusFree(s) && !s.closed && i < |s.subs| && s.subs[i].registered
    case Leave(c) => c in s.calls && s.calls[c].Leaving? && CanLeave(s, s.calls[c].i)
    case BeginClose(c) => c !in s.calls
    case LockToClose(c) => c in s.calls && s.calls[c].Closing? && BusFree(s)
    case CloseQueue(c, subj) => c in s.calls && s.calls[c].Shutting? && !s.closed && subj !in s.shut && Unread(s, subj)
    case EndClose(c) => c in s.calls && s.calls[c].Shutting? && s.queues.Keys <= s.shut
    case Wait(c) => c in s.calls && s.calls[c].Waiting? && forall i :: 0 <= i < |s.subs| ==> Finished(s.subs[i])
    case ReturnNil(c) => c in s.calls && s.calls[c].Waited?
    case ReturnLate(c) => c in s.calls && (s.calls[c].Waiting? || s.calls[c].Waited?)
    case Work(i, move) => i < |s.subs| && CanMove(s.subs[i], move)
  }

  /** There is a next subscriber and its channel has room. */
  predicate CanSend(s: State, subj: Subject, k: nat) {
    subj in s.queues && k < |s.queues[subj].subs| && s.queues[subj].subs[k] < |s.subs| &&
    |s.subs[s.queues[subj].subs[k]].inq| < CAP
  }

  predicate CanLeave(s: State, i: nat) {
    i < |s.subs| && Unread(s, s.subs[i].subj)
  }

  predicate AllServed(s: State, subj: Subject, k: nat) { subj in s.queues && k == |s.queues[subj].subs| }

  /** The lock of the queue can be taken for writing. */
  predicate Unread(s: State, subj: Subject) { subj in s.queues && s.queues[subj].readers == {} }

  function Go(s: State, c: nat, p: Phase): State { s.(calls := s.calls[c := p]) }

  function Put(s: State, i: nat, sub: Sub): State
    requires i < |s.subs|
  {
    s.(subs := s.subs[i := sub])
  }

  function WithQueue(s: State, subj: Subject, q: Queue): State { s.(queues := s.queues[subj := q]) }

  /** Swaps the last element into the first place holding `i` and drops the end. */
  function SwapRemove(subs: seq<nat>, i: nat): seq<nat> {
    if i in subs then subs[Find(subs, i) := subs[|subs| - 1]][..|subs| - 1] else subs
  }

  function Find(subs: seq<nat>, i: nat): (k: nat)
    requires i in subs
    ensures k < |subs| && subs[k] == i && i !in subs[..k]
  {
    if subs[0] == i then 0 else
      var k := 1 + Find(subs[1..], i);
      assert subs[..k] == [subs[0]] + subs[1..][..k - 1];
      k
  }

  /** close(sub.in) for each subscriber of the list. */
  function CloseAll(subs: seq<Sub>, ids: seq<nat>): (r: seq<Sub>)
    ensures |r| == |subs|
    ensures forall i :: 0 <= i < |subs| ==> r[i] == if i in ids then subs[i].(inClosed := true) else subs[i]
  {
    seq(|subs|, i requires 0 <= i < |subs| => if i in ids then subs[i].(inClosed := true) else subs[i])
  }

  function Next(s: State, e: Event): State
    requires Enabled(s, e)
  {
    match e
    case BeginSubscribe(c, subj) => Go(s, c, if s.cancelled then Refused else Entering(subj))
    case EnsureQueue(c) =>
      var subj := s.calls[c].subj;
      if s.closed then Go(s, c, Refused)
      else Go(if subj in s.queues then s else WithQueue(s, subj, Queue([], {})), c, Starting(subj))
    case Start(c) =>
      var subj := s.calls[c].subj;
      Go(s.(subs := s.subs + [NewSub(subj, c)]), c, Started(subj, |s.subs|))
    case LockToAdd(c) => Go(s.(writer := Some(c)), c, Adding(s.calls[c].subj, s.calls[c].i))
    case Add(c) => Added(s, c, s.calls[c].subj, s.calls[c].i)
    case BeginPublish(c, subj) => Go(s, c, if s.cancelled then Refused else Publishing(subj))
    case LockToRead(c) =>
      var subj := s.calls[c].subj;
      if s.closed then Go(s, c, Refused)
      else if subj !in s.queues then Go(s, c, Done)
      else Go(s.(readers := s.readers + {c}), c, Locked(subj))
    case LockQueue(c) =>
      var subj := s.calls[c].subj;
      var q := if subj in s.queues then s.queues[subj] else Queue([], {});
      Go(WithQueue(s, subj, q.(readers := q.readers + {c})).(readers := s.readers - {c}), c, Sending(subj, 0))
    case SendNext(c) =>
      var i := s.queues[s.calls[c].subj].subs[s.calls[c].k];
      Go(Put(s, i, Send(s.subs[i], Msg(c))), c, Sending(s.calls[c].subj, s.calls[c].k + 1))
    case EndPublish(c) =>
      var q := s.queues[s.calls[c].subj];
      Go(WithQueue(s, s.calls[c].subj, q.(readers := q.readers - {c})), c, Done)
    case BeginUnsubscribe(c, i) => Go(s.(writer := Some(c)), c, Leaving(i))
    case Leave(c) => Left(s.(writer := None), c, s.calls[c].i)
    case BeginClose(c) => Go(s.(cancelled := true), c, Closing)
    case LockToClose(c) => Go(s.(writer := Some(c)), c, Shutting)
    case CloseQueue(c, subj) => s.(subs := CloseAll(s.subs, s.queues[subj].subs), shut := s.shut + {subj})
    case EndClose(c) => Go(s.(closed := true, writer := None), c, Waiting)
    case Wait(c) => Go(s, c, Waited)
    case ReturnNil(c) => Go(s, c, ClosedInTime)
    case ReturnLate(c) => Go(s, c, ClosedLate)
    case Work(i, move) => Put(s, i, Moved(s.subs[i], move))
  }

  /** The end of Subscribe: the subscriber joins its queue, or finds the bus closed and closes its channel. */
  function Added(s: State, c: nat, subj: Subject, i: nat): State
    requires i < |s.subs| && (s.closed || subj in s.queues)
  {
    if s.closed then Go(Put(s, i, s.subs[i].(inClosed := true)).(writer := None), c, Refused)
    else
      var q := s.queues[subj];
      Go(WithQueue(Put(s, i, s.subs[i].(registered := true)), subj, q.(subs := q.subs + [i])).(writer := None), c, Done)
  }

  function Left(s: State, c: nat, i: nat): State
    requires CanLeave(s, i)
  {
    var q := s.queues[s.subs[i].subj];
    if i in q.subs then
      Go(WithQueue(Put(s, i, s.subs[i].(inClosed := true, alive := false)), s.subs[i].subj,
                   q.(subs := SwapRemove(q.subs, i))), c, Done)
    else Go(s, c, Done)
  }

  ghost predicate IsRun(states: seq<State>, events: seq<Event>) {
    |states| == |events| + 1 && states[0] == Initial() &&
    forall i :: 0 <= i < |events| ==> Enabled(states[i], events[i]) && states[i + 1] == Next(states[i], events[i])
  }
}
