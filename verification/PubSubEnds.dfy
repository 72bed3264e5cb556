/** pubsub/my_pubsub.go: every call of the bus comes to its end, in every interleaving. */
module PubSubEnds {
  import opened PubSubPipe
  import opened PubSubState
  import opened PubSubSafe
  import opened PubSubProgress

  predicate Begins(e: Event) { e.BeginSubscribe? || e.BeginPublish? || e.BeginUnsubscribe? || e.BeginClose? }

  predicate Over(p: Phase) { p.Refused? || p.Done? || p.ClosedInTime? || p.ClosedLate? }

  // ---- Something can always go on ----

  /** A step that goes on with what has been begun. */
  ghost predicate GoesOn(s: State, e: Event) { Enabled(s, e) && !Begins(e) }

  /** The goroutines of a subscriber whose channel is closed run to their end. */
  lemma PipeGoesOn(b: Sub) returns (move: Move)
    requires PipeInv(b) && b.inClosed && !Finished(b)
    ensures CanMove(b, move)
  {
    if b.pump.Running? {
      move := if b.inq != [] then PumpReceive else PumpSeesClose;
    } else if b.pump.Draining? && (b.buf == [] || |b.out| < CAP) {
      move := if b.buf == [] then DrainEnds else PumpSend;
    } else if b.worker.Idle? {
      move := if b.out != [] then WorkerTakes else WorkerEnds;
    } else {
      move := if b.worker.Got? then WorkerChecks else WorkerReturns;
    }
  }

  lemma FullChannelEmpties(b: Sub)
    requires PipeInv(b) && !b.inClosed && |b.inq| >= CAP
    ensures CanMove(b, PumpReceive)
  {
  }

  lemma NextIsOpen(s: State, c: nat) returns (i: nat)
    requires Senders(s) && Shut(s) && Members(s) && c in s.calls && s.calls[c].Sending?
    requires s.calls[c].k < |s.queues[s.calls[c].subj].subs|
    ensures i == s.queues[s.calls[c].subj].subs[s.calls[c].k] && i < |s.subs| && !s.subs[i].inClosed
  {
    i := s.queues[s.calls[c].subj].subs[s.calls[c].k];
    MembersAreRegistered(s, s.calls[c].subj, i);
  }

  /** A publisher in its loop can send, or finish, or the buffer behind the full channel can take something out. */
  lemma SenderGoesOn(s: State, c: nat) returns (e: Event)
    requires Senders(s) && Shut(s) && Members(s) && Pipes(s) && c in s.calls && s.calls[c].Sending?
    ensures GoesOn(s, e)
  {
    if s.calls[c].k == |s.queues[s.calls[c].subj].subs| {
      e := EndPublish(c);
    } else {
      var i := NextIsOpen(s, c);
      if |s.subs[i].inq| < CAP {
        e := SendNext(c);
      } else {
        FullChannelEmpties(s.subs[i]);
        e := Work(i, PumpReceive);
      }
    }
  }

  lemma QueueGoesOn(s: State, subj: Subject) returns (e: Event)
    requires Standing(s) && subj in s.queues && s.queues[subj].readers != {}
    ensures GoesOn(s, e)
  {
    var c :| c in s.queues[subj].readers;
    e := SenderGoesOn(s, c);
  }

  lemma LeaverGoesOn(s: State, c: nat, i: nat) returns (e: Event)
    requires Standing(s) && c in s.calls && s.calls[c] == Leaving(i)
    ensures GoesOn(s, e)
  {
    assert Placed(s, i);
    var subj := s.subs[i].subj;
    if s.queues[subj].readers == {} { e := Leave(c); } else { e := QueueGoesOn(s, subj); }
  }

  /** Whoever has the lock of the bus gets on, at the latest when a publisher has left its queue. */
  lemma HolderGoesOn(s: State) returns (e: Event)
    requires Standing(s) && s.writer.Some?
    ensures GoesOn(s, e)
  {
    var c := s.writer.value;
    match s.calls[c]
    case Adding(subj, i) =>
      assert NewlyMade(s.subs, subj, i, c);
      if s.closed || s.queues[subj].readers == {} { e := Add(c); } else { e := QueueGoesOn(s, subj); }
    case Leaving(i) =>
      e := LeaverGoesOn(s, c, i);
    case Shutting =>
      if s.queues.Keys <= s.shut {
        e := EndClose(c);
      } else {
        var subj :| subj in s.queues && subj !in s.shut;
        if s.queues[subj].readers == {} { e := CloseQueue(c, subj); } else { e := QueueGoesOn(s, subj); }
      }
  }

  lemma BusGoesOn(s: State) returns (e: Event)
    requires Standing(s) && !BusFree(s)
    ensures GoesOn(s, e)
  {
    if s.writer.Some? {
      e := HolderGoesOn(s);
    } else {
      var c :| c in s.readers;
      e := LockQueue(c);
    }
  }

  /** On a closed bus every subscriber whose goroutines still run can go on, or the Subscribe that made it can. */
  lemma SubscriberGoesOn(s: State, i: nat) returns (e: Event)
    requires Standing(s) && s.closed && i < |s.subs| && !Finished(s.subs[i])
    ensures GoesOn(s, e)
  {
    var b := s.subs[i];
    assert Placed(s, i) && PipeInv(b);
    if b.inClosed {
      var move := PipeGoesOn(b);
      e := Work(i, move);
    } else if b.registered {
      ClosedAreClosed(s, i);
      assert false;
    } else if !BusFree(s) {
      e := BusGoesOn(s);
    } else {
      JoinerIsNotAdding(s, b.owner);
      e := LockToAdd(b.owner);
    }
  }

  lemma ClosedAreClosed(s: State, i: nat)
    requires Standing(s) && s.closed && i < |s.subs| && s.subs[i].registered
    ensures s.subs[i].inClosed
  {
    assert Placed(s, i);
  }

  lemma JoinerIsNotAdding(s: State, c: nat)
    requires Locks(s) && BusFree(s) && c in s.calls && Joins(s.calls[c])
    ensures s.calls[c].Started?
  {
  }

  lemma SubscribeCallGoesOn(s: State, c: nat) returns (e: Event)
    requires BusFree(s) && c in s.calls && (s.calls[c].Entering? || s.calls[c].Starting? || s.calls[c].Started?)
    ensures GoesOn(s, e)
  {
    e := if s.calls[c].Entering? then EnsureQueue(c) else if s.calls[c].Starting? then Start(c) else LockToAdd(c);
  }

  lemma PublishCallGoesOn(s: State, c: nat) returns (e: Event)
    requires Senders(s) && Shut(s) && Members(s) && Pipes(s) && BusFree(s) && c in s.calls
    requires s.calls[c].Publishing? || s.calls[c].Locked? || s.calls[c].Sending?
    ensures GoesOn(s, e)
  {
    if s.calls[c].Sending? {
      e := SenderGoesOn(s, c);
    } else {
      e := if s.calls[c].Publishing? then LockToRead(c) else LockQueue(c);
    }
  }

  lemma CloseCallGoesOn(s: State, c: nat) returns (e: Event)
    requires Standing(s) && BusFree(s) && c in s.calls
    requires s.calls[c].Closing? || s.calls[c].Waiting? || s.calls[c].Waited?
    ensures GoesOn(s, e)
  {
    if i :| 0 <= i < |s.subs| && s.calls[c].Waiting? && !Finished(s.subs[i]) {
      e := SubscriberGoesOn(s, i);
    } else {
      e := if s.calls[c].Closing? then LockToClose(c) else if s.calls[c].Waiting? then Wait(c) else ReturnNil(c);
    }
  }

  lemma FreeBusIsNotHeld(s: State, c: nat)
    requires Locks(s) && BusFree(s) && c in s.calls
    ensures !WorksAlone(s.calls[c])
  {
  }

  lemma CallGoesOn(s: State, c: nat) returns (e: Event)
    requires Standing(s) && c in s.calls && !Over(s.calls[c])
    ensures GoesOn(s, e)
  {
    if !BusFree(s) {
      e := BusGoesOn(s);
    } else if s.calls[c].Entering? || s.calls[c].Starting? || s.calls[c].Started? {
      e := SubscribeCallGoesOn(s, c);
    } else if s.calls[c].Publishing? || s.calls[c].Locked? || s.calls[c].Sending? {
      e := PublishCallGoesOn(s, c);
    } else {
      FreeBusIsNotHeld(s, c);
      e := CloseCallGoesOn(s, c);
    }
  }

  /** In every run: as long as a call is not over, something can go on without a new call. */
  lemma NoDeadlock(states: seq<State>, events: seq<Event>, n: nat, c: nat) returns (e: Event)
    requires IsRun(states, events) && n < |states| && c in states[n].calls && !Over(states[n].calls[c])
    ensures Enabled(states[n], e) && !Begins(e)
  {
    RunsKeepStanding(states, events, n);
    e := CallGoesOn(states[n], c);
  }
}
