/** pubsub/my_pubsub.go: subscribers join and leave as asked, and no interleaving comes to a stop halfway. */
module PubSubProgress {
  import opened PubSubPipe
  import opened PubSubState
  import opened PubSubSafe
  import opened PubSubCalls

  // ---- Where each subscriber is ----

  /** In its list, gone for good, or in the hands of the Subscribe that made it. */
  ghost predicate Placed(s: State, i: nat)
    requires i < |s.subs|
  {
    var b := s.subs[i];
    if !b.registered then b.inClosed || (b.owner in s.calls && Joins(s.calls[b.owner]) && s.calls[b.owner].i == i)
    else b.subj in s.queues && if b.alive then i in s.queues[b.subj].subs else b.inClosed
  }

  ghost predicate AllPlaced(s: State) { forall i :: 0 <= i < |s.subs| ==> Placed(s, i) }

  lemma AddPlacesOwn(s: State, c: nat)
    requires Enabled(s, Add(c)) && NewlyMade(s.subs, s.calls[c].subj, s.calls[c].i, c)
    ensures Placed(Next(s, Add(c)), s.calls[c].i)
  {
  }

  lemma AddKeepsOthersPlaced(s: State, c: nat, i: nat)
    requires Enabled(s, Add(c)) && i < |s.subs| && i != s.calls[c].i && Placed(s, i)
    ensures Placed(Next(s, Add(c)), i)
  {
    assert Next(s, Add(c)).subs[i] == s.subs[i];
  }

  lemma AddKeepsPlaced(s: State, c: nat, i: nat)
    requires Joining(s) && Enabled(s, Add(c)) && i < |s.subs| && Placed(s, i)
    ensures Placed(Next(s, Add(c)), i)
  {
    if i == s.calls[c].i {
      assert NewlyMade(s.subs, s.calls[c].subj, s.calls[c].i, c);
      AddPlacesOwn(s, c);
    } else {
      AddKeepsOthersPlaced(s, c, i);
    }
  }

  lemma LeavePlacesOwn(s: State, c: nat)
    requires Members(s) && Enabled(s, Leave(c)) && Placed(s, s.calls[c].i)
    ensures Placed(Next(s, Leave(c)), s.calls[c].i)
  {
    MembersAreRegistered(s, s.subs[s.calls[c].i].subj, s.calls[c].i);
  }

  lemma LeaveKeepsOthersPlaced(s: State, c: nat, i: nat)
    requires Members(s) && Enabled(s, Leave(c)) && i < |s.subs| && i != s.calls[c].i && Placed(s, i)
    ensures Placed(Next(s, Leave(c)), i)
  {
    var t := Next(s, Leave(c));
    SwapRemoveRemoves(s.queues[s.subs[s.calls[c].i].subj].subs, s.calls[c].i);
    assert t.subs[i] == s.subs[i];
    assert s.subs[i].owner in s.calls && Joins(s.calls[s.subs[i].owner]) ==> s.subs[i].owner != c;
  }

  lemma LeaveKeepsPlaced(s: State, c: nat, i: nat)
    requires Members(s) && Enabled(s, Leave(c)) && i < |s.subs| && Placed(s, i)
    ensures Placed(Next(s, Leave(c)), i)
  {
    if i == s.calls[c].i { LeavePlacesOwn(s, c); } else { LeaveKeepsOthersPlaced(s, c, i); }
  }

  lemma CloseKeepsPlaced(s: State, c: nat, subj: Subject, i: nat)
    requires Enabled(s, CloseQueue(c, subj)) && i < |s.subs| && Placed(s, i)
    ensures Placed(Next(s, CloseQueue(c, subj)), i)
  {
  }

  lemma JoinerGoesOn(s: State, e: Event, c: nat)
    requires Enabled(s, e) && c in s.calls && Joins(s.calls[c]) && e != Add(c)
    ensures c in Next(s, e).calls && Joins(Next(s, e).calls[c]) && Next(s, e).calls[c].i == s.calls[c].i
  {
    if e.Work? || e.c != c { OthersStay(s, e, c); }
  }

  lemma OtherStepKeepsPlaced(s: State, e: Event, i: nat)
    requires Inv(s) && Enabled(s, e) && !Changes(e) && i < |s.subs| && Placed(s, i)
    ensures i < |Next(s, e).subs| && Placed(Next(s, e), i)
  {
    StandingStays(s, e, i);
    var b := s.subs[i];
    if b.registered {
      QueuesStay(s, e);
      ListsStay(s, e, b.subj);
    } else if !b.registered && !b.inClosed {
      JoinerGoesOn(s, e, b.owner);
    }
  }

  lemma NewcomerIsPlaced(s: State, e: Event, i: nat)
    requires Enabled(s, e) && |s.subs| <= i < |Next(s, e).subs|
    ensures Placed(Next(s, e), i)
  {
    assert e.Start?;
  }

  lemma StepKeepsPlaced(s: State, e: Event, i: nat)
    requires Inv(s) && Enabled(s, e) && i < |s.subs| && Placed(s, i)
    ensures i < |Next(s, e).subs| && Placed(Next(s, e), i)
  {
    if e.Add? {
      AddKeepsPlaced(s, e.c, i);
    } else if e.Leave? {
      LeaveKeepsPlaced(s, e.c, i);
    } else if e.CloseQueue? {
      CloseKeepsPlaced(s, e.c, e.subj, i);
    } else {
      OtherStepKeepsPlaced(s, e, i);
    }
  }

  // ---- Who holds which lock ----

  predicate WorksAlone(p: Phase) { p.Adding? || p.Leaving? || p.Shutting? }

  /** Every lock that is held is held by a call that is about to work under it. */
  ghost predicate LocksAreHeld(s: State) {
    (s.writer.Some? ==> s.writer.value in s.calls && WorksAlone(s.calls[s.writer.value])) &&
    (forall c :: c in s.readers ==> c in s.calls && s.calls[c].Locked?) &&
    forall subj, c :: subj in s.queues && c in s.queues[subj].readers ==>
      c in s.calls && s.calls[c].Sending? && s.calls[c].subj == subj
  }

  lemma SubscribeKeepsHeld(s: State, e: Event)
    requires OfSubscribe(e) && LocksAreHeld(s) && Locks(s) && Enabled(s, e)
    ensures LocksAreHeld(Next(s, e))
  {
  }

  lemma PublishKeepsHeld(s: State, e: Event)
    requires OfPublish(e) && LocksAreHeld(s) && Locks(s) && Enabled(s, e)
    ensures LocksAreHeld(Next(s, e))
  {
  }

  lemma CloseKeepsHeld(s: State, e: Event)
    requires !OfSubscribe(e) && !OfPublish(e) && LocksAreHeld(s) && Locks(s) && Enabled(s, e)
    ensures LocksAreHeld(Next(s, e))
  {
  }

  lemma StepKeepsHeld(s: State, e: Event)
    requires LocksAreHeld(s) && Locks(s) && Enabled(s, e)
    ensures LocksAreHeld(Next(s, e))
  {
    if OfSubscribe(e) {
      SubscribeKeepsHeld(s, e);
    } else if OfPublish(e) {
      PublishKeepsHeld(s, e);
    } else {
      CloseKeepsHeld(s, e);
    }
  }

  /** Close has closed the channels of the subjects it has reached. */
  ghost predicate ShutAreClosed(s: State) {
    forall subj, i :: subj in s.shut && subj in s.queues && i in s.queues[subj].subs ==>
      i < |s.subs| && s.subs[i].inClosed
  }

  lemma StepKeepsShutClosed(s: State, e: Event)
    requires Inv(s) && ShutAreClosed(s) && Enabled(s, e)
    ensures ShutAreClosed(Next(s, e))
  {
    var t := Next(s, e);
    forall subj, i | subj in t.shut && subj in t.queues && i in t.queues[subj].subs
      ensures i < |t.subs| && t.subs[i].inClosed
    {
      if e.Add? || e.Leave? {
        JoinersFindOpen(s, e);
      } else if e.CloseQueue? {
        MembersAreRegistered(s, subj, i);
      } else {
        ListsStay(s, e, subj);
        MembersAreRegistered(s, subj, i);
        StandingStays(s, e, i);
      }
    }
  }

  /** Lists change only on a bus on which no subject has been shut, or not at all. */
  lemma JoinersFindOpen(s: State, e: Event)
    requires Inv(s) && Enabled(s, e) && (e.Add? || e.Leave?)
    ensures !s.closed ==> Next(s, e).shut == {}
    ensures s.closed ==> Next(s, e).queues == s.queues && Next(s, e).shut == s.shut && |Next(s, e).subs| == |s.subs|
    ensures s.closed ==> forall i :: 0 <= i < |s.subs| && s.subs[i].inClosed ==> Next(s, e).subs[i].inClosed
  {
  }

  // ---- Subscribers keep their names ----

  ghost predicate HasJoined(subs: seq<Sub>, i: nat, subj: Subject, c: nat) {
    i < |subs| && subs[i].subj == subj && subs[i].owner == c && subs[i].registered
  }

  lemma JoinedStays(s: State, e: Event, i: nat, subj: Subject, c: nat)
    requires Inv(s) && Enabled(s, e) && HasJoined(s.subs, i, subj, c)
    ensures HasJoined(Next(s, e).subs, i, subj, c)
  {
    if !Changes(e) { StandingStays(s, e, i); }
  }

  ghost predicate LeaversAreRegistered(s: State) {
    forall c :: c in s.calls && s.calls[c].Leaving? ==> s.calls[c].i < |s.subs| && s.subs[s.calls[c].i].registered
  }

  lemma StepKeepsLeavers(s: State, e: Event)
    requires Inv(s) && LeaversAreRegistered(s) && Enabled(s, e)
    ensures LeaversAreRegistered(Next(s, e))
  {
    var t := Next(s, e);
    forall c | c in t.calls && t.calls[c].Leaving?
      ensures t.calls[c].i < |t.subs| && t.subs[t.calls[c].i].registered
    {
      LeaverComesFrom(s, e, c);
      if !e.BeginUnsubscribe? {
        var i := s.calls[c].i;
        JoinedStays(s, e, i, s.subs[i].subj, s.subs[i].owner);
      }
    }
  }

  lemma LeaverComesFrom(s: State, e: Event, c: nat)
    requires Enabled(s, e) && c in Next(s, e).calls && Next(s, e).calls[c].Leaving?
    ensures e == BeginUnsubscribe(c, Next(s, e).calls[c].i) ||
            (!e.BeginUnsubscribe? && c in s.calls && s.calls[c] == Next(s, e).calls[c]) ||
            (e.BeginUnsubscribe? && e.c != c && c in s.calls && s.calls[c] == Next(s, e).calls[c])
  {
    if c in s.calls && (e.Work? || e.c != c) { OthersStay(s, e, c); }
  }

  // ---- In every run ----

  ghost predicate Standing(s: State) {
    Inv(s) && AllPlaced(s) && LocksAreHeld(s) && ShutAreClosed(s) && LeaversAreRegistered(s)
  }

  lemma StepKeepsAllPlaced(s: State, e: Event)
    requires Inv(s) && AllPlaced(s) && Enabled(s, e)
    ensures AllPlaced(Next(s, e))
  {
    forall i | 0 <= i < |Next(s, e).subs| ensures Placed(Next(s, e), i) {
      if i < |s.subs| { StepKeepsPlaced(s, e, i); } else { NewcomerIsPlaced(s, e, i); }
    }
  }

  lemma StepKeepsStanding(s: State, e: Event)
    requires Standing(s) && Enabled(s, e)
    ensures Standing(Next(s, e))
  {
    StepKeepsInv(s, e);
    StepKeepsAllPlaced(s, e);
    StepKeepsHeld(s, e);
    StepKeepsShutClosed(s, e);
    StepKeepsLeavers(s, e);
  }

  lemma {:induction false} RunsKeepStanding(states: seq<State>, events: seq<Event>, n: nat)
    requires IsRun(states, events) && n < |states|
    ensures Standing(states[n])
  {
    RunsKeepInv(states, events, n);
    if n > 0 {
      RunsKeepStanding(states, events, n - 1);
      StepKeepsStanding(states[n - 1], events[n - 1]);
    }
  }

  // ---- Subscribe ----

  /** A Subscribe of `c` to `subj` that is still going on, was refused, or has put a subscriber of its own in place. */
  ghost predicate SubscribeTo(s: State, c: nat, subj: Subject) {
    c in s.calls &&
    match s.calls[c]
    case Entering(own) => own == subj
    case Starting(own) => own == subj
    case Started(own, _) => own == subj
    case Adding(own, _) => own == subj
    case Done => exists i: nat :: HasJoined(s.subs, i, subj, c)
    case Refused => true
    case _ => false
  }

  lemma SubscriberGoesOn(s: State, e: Event, c: nat, subj: Subject)
    requires Joining(s) && Enabled(s, e) && SubscribeTo(s, c, subj) && !e.Work? && e.c == c
    ensures SubscribeTo(Next(s, e), c, subj)
  {
    if e.Add? {
      assert NewlyMade(s.subs, s.calls[c].subj, s.calls[c].i, c);
      if !s.closed { assert HasJoined(Next(s, e).subs, s.calls[c].i, subj, c); }
    }
  }

  lemma SubscribeGoesOn(s: State, e: Event, c: nat, subj: Subject)
    requires Inv(s) && Enabled(s, e) && SubscribeTo(s, c, subj)
    ensures SubscribeTo(Next(s, e), c, subj)
  {
    if !e.Work? && e.c == c {
      SubscriberGoesOn(s, e, c, subj);
    } else {
      OthersStay(s, e, c);
      if i: nat :| s.calls[c].Done? && HasJoined(s.subs, i, subj, c) { JoinedStays(s, e, i, subj, c); }
    }
  }

  lemma {:induction false} SubscribeJoinsOn(states: seq<State>, events: seq<Event>, m: nat, n: nat, c: nat,
    subj: Subject)
    requires IsRun(states, events) && m < n < |states| && events[m] == BeginSubscribe(c, subj)
    ensures SubscribeTo(states[n], c, subj)
    decreases n
  {
    RunsKeepInv(states, events, n - 1);
    if m + 1 < n {
      SubscribeJoinsOn(states, events, m, n - 1, c, subj);
      SubscribeGoesOn(states[n - 1], events[n - 1], c, subj);
    }
  }

  /** When Subscribe returns a subscription, it is in the list of its subject, until somebody makes it leave. */
  lemma SubscribeJoins(states: seq<State>, events: seq<Event>, m: nat, n: nat, c: nat, subj: Subject) returns (i: nat)
    requires IsRun(states, events) && m < n < |states| && events[m] == BeginSubscribe(c, subj)
    requires c in states[n].calls && states[n].calls[c].Done?
    ensures HasJoined(states[n].subs, i, subj, c)
    ensures states[n].subs[i].alive ==> subj in states[n].queues && i in states[n].queues[subj].subs
  {
    SubscribeJoinsOn(states, events, m, n, c, subj);
    RunsKeepStanding(states, events, n);
    i :| HasJoined(states[n].subs, i, subj, c);
    assert Placed(states[n], i);
  }

  // ---- Unsubscribe ----

  lemma LeaveTakesAway(s: State, c: nat)
    requires Members(s) && Enabled(s, Leave(c)) && s.subs[s.calls[c].i].registered && Placed(s, s.calls[c].i)
    ensures var i := s.calls[c].i; !Next(s, Leave(c)).subs[i].alive && Next(s, Leave(c)).calls[c].Done?
  {
  }

  /** Unsubscribe takes the subscriber out of every list, and marks it so that its callback is not called any more. */
  lemma UnsubscribeLeaves(states: seq<State>, events: seq<Event>, n: nat, subj: Subject)
    requires IsRun(states, events) && n < |events| && events[n].Leave?
    ensures var i := states[n].calls[events[n].c].i;
      i < |states[n + 1].subs| && !states[n + 1].subs[i].alive &&
      (subj in states[n + 1].queues ==> i !in states[n + 1].queues[subj].subs)
  {
    var s, c := states[n], events[n].c;
    RunsKeepStanding(states, events, n);
    RunsKeepInv(states, events, n + 1);
    assert Placed(s, s.calls[c].i);
    LeaveTakesAway(s, c);
    if subj in states[n + 1].queues { MembersAreRegistered(states[n + 1], subj, s.calls[c].i); }
  }

  /** What the callback has been given, and what it is working on. */
  function Called(b: Sub): seq<Msg> { b.delivered + InCallback(b.worker) }

  lemma MoveCallsNobodyGone(b: Sub, move: Move)
    requires CanMove(b, move) && !b.alive
    ensures Called(Moved(b, move)) == Called(b) && !Moved(b, move).alive
  {
  }

  lemma StepCallsNobodyGone(s: State, e: Event, i: nat)
    requires Enabled(s, e) && i < |s.subs| && !s.subs[i].alive
    ensures i < |Next(s, e).subs| && !Next(s, e).subs[i].alive && Called(Next(s, e).subs[i]) == Called(s.subs[i])
  {
    if e.Work? && e.i == i { MoveCallsNobodyGone(s.subs[i], e.move); }
  }

  /** After Unsubscribe no call of the callback begins, whatever was still under way to it. */
  lemma {:induction false} LeavingStopsCallbacks(states: seq<State>, events: seq<Event>, m: nat, n: nat, i: nat)
    requires IsRun(states, events) && m <= n < |states| && i < |states[m].subs| && !states[m].subs[i].alive
    ensures i < |states[n].subs| && !states[n].subs[i].alive && Called(states[n].subs[i]) == Called(states[m].subs[i])
    decreases n
  {
    if m < n {
      LeavingStopsCallbacks(states, events, m, n - 1, i);
      StepCallsNobodyGone(states[n - 1], events[n - 1], i);
    }
  }
}
