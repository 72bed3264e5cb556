/** What every run of the bus keeps, and what Publish and Close promise. */
module PubSubSafe {
  import opened Common
  import opened PubSubPipe
  import opened PubSubState

  /** Who may hold the lock of the bus. */
  ghost predicate Locks(s: State) {
    (forall c :: c in s.calls && (s.calls[c].Adding? || s.calls[c].Leaving? || s.calls[c].Shutting?) ==>
      s.writer == Some(c)) &&
    (forall c :: c in s.calls && s.calls[c].Leaving? ==> !s.closed) &&
    (forall c :: c in s.calls && s.calls[c].Locked? ==> c in s.readers && !s.closed && s.calls[c].subj in s.queues) &&
    (s.writer.Some? ==> s.readers == {})
  }

  /** A publisher in its loop holds the lock of its queue. */
  ghost predicate Senders(s: State) {
    forall c :: c in s.calls && s.calls[c].Sending? ==>
      s.calls[c].subj in s.queues && c in s.queues[s.calls[c].subj].readers &&
      s.calls[c].k <= |s.queues[s.calls[c].subj].subs|
  }

  /** Channels are closed by Close under the lock of the bus, and with no publisher in the queue. */
  ghost predicate Shut(s: State) {
    s.shut <= s.queues.Keys && (forall subj :: subj in s.shut ==> s.queues[subj].readers == {}) &&
    (s.shut != {} && !s.closed ==> s.writer.Some? && s.writer.value in s.calls && s.calls[s.writer.value].Shutting?) &&
    (s.closed ==> s.shut == s.queues.Keys)
  }

  ghost predicate MemberOf(subs: seq<Sub>, subj: Subject, i: nat) {
    i < |subs| && subs[i].subj == subj && subs[i].registered && subs[i].alive
  }

  /** The lists hold each subscriber once, under its subject, its channel open until Close reaches the subject. */
  ghost predicate Members(s: State) {
    forall subj :: subj in s.queues ==>
      Distinct(s.queues[subj].subs) &&
      forall i :: i in s.queues[subj].subs ==>
        MemberOf(s.subs, subj, i) && (subj !in s.shut ==> !s.subs[i].inClosed)
  }

  ghost predicate NewlyMade(subs: seq<Sub>, subj: Subject, i: nat, c: nat) {
    i < |subs| && subs[i].subj == subj && subs[i].owner == c && !subs[i].registered && !subs[i].inClosed &&
      subs[i].alive
  }

  ghost predicate KnowQueue(s: State) {
    forall c :: c in s.calls && (s.calls[c].Starting? || s.calls[c].Started? || s.calls[c].Adding?) ==>
      s.calls[c].subj in s.queues
  }

  /** A subscriber on its way into a list belongs to one call, and has been sent nothing. */
  ghost predicate Joining(s: State) {
    (forall c :: c in s.calls && (s.calls[c].Started? || s.calls[c].Adding?) ==>
      NewlyMade(s.subs, s.calls[c].subj, s.calls[c].i, c)) &&
    KnowQueue(s) &&
    (forall i :: 0 <= i < |s.subs| && !s.subs[i].registered ==> s.subs[i].sent == [])
  }

  ghost predicate Pipes(s: State) { forall i :: 0 <= i < |s.subs| ==> PipeInv(s.subs[i]) }

  predicate Quiet(s: Sub) { Finished(s) || s.sent == [] }

  predicate AfterWait(p: Phase) { p.Waited? || p.ClosedInTime? }

  /** After Close has waited, every subscriber's goroutines are gone, except for one nothing was ever sent to. */
  ghost predicate Ended(s: State) {
    (forall c :: c in s.calls && (s.calls[c].Waiting? || AfterWait(s.calls[c])) ==> s.closed) &&
    (forall c :: c in s.calls && AfterWait(s.calls[c]) ==>
      forall i :: 0 <= i < |s.subs| ==> Quiet(s.subs[i]))
  }

  lemma SubscribeKeepsLocks(s: State, e: Event)
    requires OfSubscribe(e)
    requires Locks(s) && Enabled(s, e)
    ensures Locks(Next(s, e))
  {
  }

  lemma PublishKeepsLocks(s: State, e: Event)
    requires OfPublish(e)
    requires Locks(s) && Enabled(s, e)
    ensures Locks(Next(s, e))
  {
  }

  lemma CloseKeepsLocks(s: State, e: Event)
    requires !OfSubscribe(e) && !OfPublish(e)
    requires Locks(s) && Enabled(s, e)
    ensures Locks(Next(s, e))
  {
  }

  lemma StepKeepsLocks(s: State, e: Event)
    requires Locks(s) && Enabled(s, e)
    ensures Locks(Next(s, e))
  {
    if OfSubscribe(e) {
      SubscribeKeepsLocks(s, e);
    } else if OfPublish(e) {
      PublishKeepsLocks(s, e);
    } else {
      CloseKeepsLocks(s, e);
    }
  }

  lemma SubscribeKeepsSenders(s: State, e: Event)
    requires OfSubscribe(e)
    requires Senders(s) && Locks(s) && Enabled(s, e)
    ensures Senders(Next(s, e))
  {
  }

  lemma PublishKeepsSenders(s: State, e: Event)
    requires OfPublish(e)
    requires Senders(s) && Locks(s) && Enabled(s, e)
    ensures Senders(Next(s, e))
  {
  }

  lemma CloseKeepsSenders(s: State, e: Event)
    requires !OfSubscribe(e) && !OfPublish(e)
    requires Senders(s) && Locks(s) && Enabled(s, e)
    ensures Senders(Next(s, e))
  {
  }

  lemma StepKeepsSenders(s: State, e: Event)
    requires Senders(s) && Locks(s) && Enabled(s, e)
    ensures Senders(Next(s, e))
  {
    if OfSubscribe(e) {
      SubscribeKeepsSenders(s, e);
    } else if OfPublish(e) {
      PublishKeepsSenders(s, e);
    } else {
      CloseKeepsSenders(s, e);
    }
  }

  lemma SubscribeKeepsShut(s: State, e: Event)
    requires OfSubscribe(e)
    requires Shut(s) && Locks(s) && Enabled(s, e)
    ensures Shut(Next(s, e))
  {
  }

  lemma PublishKeepsShut(s: State, e: Event)
    requires OfPublish(e)
    requires Shut(s) && Locks(s) && Enabled(s, e)
    ensures Shut(Next(s, e))
  {
  }

  lemma CloseKeepsShut(s: State, e: Event)
    requires !OfSubscribe(e) && !OfPublish(e)
    requires Shut(s) && Locks(s) && Enabled(s, e)
    ensures Shut(Next(s, e))
  {
  }

  lemma StepKeepsShut(s: State, e: Event)
    requires Shut(s) && Locks(s) && Enabled(s, e)
    ensures Shut(Next(s, e))
  {
    if OfSubscribe(e) {
      SubscribeKeepsShut(s, e);
    } else if OfPublish(e) {
      PublishKeepsShut(s, e);
    } else {
      CloseKeepsShut(s, e);
    }
  }

  predicate Changes(e: Event) { e.Add? || e.Leave? || e.CloseQueue? }

  lemma SubsStay(s: State, e: Event)
    requires Enabled(s, e) && !Changes(e) && !e.Start? && !e.SendNext? && !e.Work?
    ensures Next(s, e).subs == s.subs
  {
  }

  lemma WorkKeepsStanding(s: State, e: Event, i: nat)
    requires Enabled(s, e) && (e.Start? || e.SendNext? || e.Work?) && i < |s.subs|
    ensures i < |Next(s, e).subs| && SameStanding(Next(s, e).subs[i], s.subs[i])
  {
    if e.Work? { MoveKeepsStanding(s.subs[e.i], e.move); }
  }

  lemma StandingStays(s: State, e: Event, i: nat)
    requires Enabled(s, e) && !Changes(e) && i < |s.subs|
    ensures i < |Next(s, e).subs| && SameStanding(Next(s, e).subs[i], s.subs[i])
  {
    if e.Start? || e.SendNext? || e.Work? {
      WorkKeepsStanding(s, e, i);
    } else {
      SubsStay(s, e);
    }
  }

  lemma WorkKeepsSent(s: State, e: Event, i: nat)
    requires Enabled(s, e) && (Changes(e) || e.Start? || e.Work?) && i < |s.subs|
    ensures i < |Next(s, e).subs| && Next(s, e).subs[i].sent == s.subs[i].sent
  {
    if e.Work? { MoveKeepsStanding(s.subs[e.i], e.move); }
  }

  lemma SentStays(s: State, e: Event, i: nat)
    requires Enabled(s, e) && !e.SendNext? && i < |s.subs|
    ensures i < |Next(s, e).subs| && Next(s, e).subs[i].sent == s.subs[i].sent
  {
    if Changes(e) || e.Start? || e.Work? {
      WorkKeepsSent(s, e, i);
    } else {
      SubsStay(s, e);
    }
  }

  lemma SubscribeKeepsLists(s: State, e: Event, subj: Subject)
    requires OfSubscribe(e)
    requires Enabled(s, e) && !Changes(e) && subj in Next(s, e).queues
    ensures subj in s.queues ==> Next(s, e).queues[subj].subs == s.queues[subj].subs
    ensures subj !in s.queues ==> Next(s, e).queues[subj].subs == []
    ensures Next(s, e).shut == s.shut
  {
  }

  lemma PublishKeepsLists(s: State, e: Event, subj: Subject)
    requires OfPublish(e)
    requires Enabled(s, e) && !Changes(e) && subj in Next(s, e).queues &&
      (e.LockQueue? ==> s.calls[e.c].subj in s.queues)
    ensures subj in s.queues ==> Next(s, e).queues[subj].subs == s.queues[subj].subs
    ensures subj !in s.queues ==> Next(s, e).queues[subj].subs == []
    ensures Next(s, e).shut == s.shut
  {
  }

  lemma CloseKeepsLists(s: State, e: Event, subj: Subject)
    requires !OfSubscribe(e) && !OfPublish(e)
    requires Enabled(s, e) && !Changes(e) && subj in Next(s, e).queues
    ensures subj in s.queues ==> Next(s, e).queues[subj].subs == s.queues[subj].subs
    ensures subj !in s.queues ==> Next(s, e).queues[subj].subs == []
    ensures Next(s, e).shut == s.shut
  {
  }

  lemma ListsStay(s: State, e: Event, subj: Subject)
    requires Enabled(s, e) && !Changes(e) && subj in Next(s, e).queues &&
      (e.LockQueue? ==> s.calls[e.c].subj in s.queues)
    ensures subj in s.queues ==> Next(s, e).queues[subj].subs == s.queues[subj].subs
    ensures subj !in s.queues ==> Next(s, e).queues[subj].subs == []
    ensures Next(s, e).shut == s.shut
  {
    if OfSubscribe(e) {
      SubscribeKeepsLists(s, e, subj);
    } else if OfPublish(e) {
      PublishKeepsLists(s, e, subj);
    } else {
      CloseKeepsLists(s, e, subj);
    }
  }

  lemma OtherStepKeepsMembers(s: State, e: Event)
    requires Members(s) && Locks(s) && Enabled(s, e) && !Changes(e)
    ensures Members(Next(s, e))
  {
    var t := Next(s, e);
    forall subj, i | subj in t.queues && i in t.queues[subj].subs
      ensures MemberOf(t.subs, subj, i) && (subj !in t.shut ==> !t.subs[i].inClosed)
    {
      ListsStay(s, e, subj);
      assert MemberOf(s.subs, subj, i);
      StandingStays(s, e, i);
    }
    forall subj | subj in t.queues ensures Distinct(t.queues[subj].subs) {
      ListsStay(s, e, subj);
    }
  }

  lemma MembersAreRegistered(s: State, subj: Subject, i: nat)
    requires Members(s) && subj in s.queues
    ensures i in s.queues[subj].subs ==> MemberOf(s.subs, subj, i)
  {
  }

  lemma AddKeepsMembers(s: State, c: nat)
    requires Members(s) && Locks(s) && Shut(s) && Joining(s) && Enabled(s, Add(c))
    ensures Members(Next(s, Add(c)))
  {
    var t := Next(s, Add(c));
    var new_i := s.calls[c].i;
    assert NewlyMade(s.subs, s.calls[c].subj, new_i, c);
    forall subj, i | subj in t.queues && i in t.queues[subj].subs
      ensures MemberOf(t.subs, subj, i) && (subj !in t.shut ==> !t.subs[i].inClosed)
    {
      if i in s.queues[subj].subs { assert MemberOf(s.subs, subj, i); }
    }
    forall subj | subj in t.queues ensures Distinct(t.queues[subj].subs) {
      MembersAreRegistered(s, subj, new_i);
    }
  }

  lemma SwapRemoveRemoves(ids: seq<nat>, i: nat)
    requires Distinct(ids)
    ensures Distinct(SwapRemove(ids, i))
    ensures forall j :: j in SwapRemove(ids, i) <==> j in ids && j != i
  {
    var r := SwapRemove(ids, i);
    if i in ids {
      var k := Find(ids, i);
      forall j | j in ids && j != i ensures j in r {
        var n :| 0 <= n < |ids| && ids[n] == j;
        assert if n == |ids| - 1 then r[k] == j else r[n] == j;
      }
    }
  }

  lemma LeaveKeepsMembers(s: State, c: nat)
    requires Members(s) && Enabled(s, Leave(c))
    ensures Members(Next(s, Leave(c)))
  {
    var t := Next(s, Leave(c));
    var gone := s.calls[c].i;
    var own := s.subs[gone].subj;
    SwapRemoveRemoves(s.queues[own].subs, gone);
    forall subj, i | subj in t.queues && i in t.queues[subj].subs
      ensures MemberOf(t.subs, subj, i) && (subj !in t.shut ==> !t.subs[i].inClosed)
    {
      assert i in s.queues[subj].subs;
      assert MemberOf(s.subs, subj, i);
    }
    forall subj | subj in t.queues ensures Distinct(t.queues[subj].subs) {
      assert Distinct(s.queues[subj].subs);
    }
  }

  lemma CloseKeepsMembers(s: State, c: nat, subj0: Subject)
    requires Members(s) && Enabled(s, CloseQueue(c, subj0))
    ensures Members(Next(s, CloseQueue(c, subj0)))
  {
  }

  lemma StepKeepsMembers(s: State, e: Event)
    requires Members(s) && Locks(s) && Shut(s) && Joining(s) && Enabled(s, e)
    ensures Members(Next(s, e))
  {
    match e
    case Add(c) => AddKeepsMembers(s, c);
    case Leave(c) => LeaveKeepsMembers(s, c);
    case CloseQueue(c, subj) => CloseKeepsMembers(s, c, subj);
    case _ => OtherStepKeepsMembers(s, e);
  }

  // ---- Joining ----

  lemma ChangeKeepsUnregistered(s: State, e: Event, i: nat)
    requires Members(s) && Enabled(s, e) && Changes(e) && i < |s.subs| && !s.subs[i].registered
    requires !(e.Add? && s.calls[e.c].i == i)
    ensures i < |Next(s, e).subs| && Next(s, e).subs[i] == s.subs[i]
  {
    if e.CloseQueue? {
      MembersAreRegistered(s, e.subj, i);
    } else if e.Leave? {
      MembersAreRegistered(s, s.subs[s.calls[e.c].i].subj, i);
    }
  }

  lemma SendKeepsUnregistered(s: State, e: Event, i: nat)
    requires Members(s) && Enabled(s, e) && e.SendNext? && i < |s.subs| && !s.subs[i].registered
    ensures i < |Next(s, e).subs| && Next(s, e).subs[i] == s.subs[i]
  {
  }

  lemma UnregisteredStays(s: State, e: Event, i: nat)
    requires Members(s) && Joining(s) && Enabled(s, e) && i < |s.subs| && !s.subs[i].registered
    requires !(e.Add? && s.calls[e.c].i == i)
    ensures i < |Next(s, e).subs| && Next(s, e).subs[i].sent == [] && SameStanding(Next(s, e).subs[i], s.subs[i])
  {
    if Changes(e) {
      ChangeKeepsUnregistered(s, e, i);
    } else if e.SendNext? {
      SendKeepsUnregistered(s, e, i);
    } else {
      StandingStays(s, e, i);
      SentStays(s, e, i);
    }
  }

  lemma QueuesStay(s: State, e: Event)
    requires Enabled(s, e)
    ensures s.queues.Keys <= Next(s, e).queues.Keys
  {
  }

  lemma NothingSentBeforeJoining(s: State, e: Event, i: nat)
    requires Members(s) && Joining(s) && Enabled(s, e)
    requires i < |Next(s, e).subs| && !Next(s, e).subs[i].registered
    ensures Next(s, e).subs[i].sent == []
  {
    if e.Add? {
    } else if e.Start? {
    } else {
      assert |Next(s, e).subs| == |s.subs|;
      UnregisteredStays(s, e, i);
    }
  }

  lemma NewlyMadeStays(s: State, e: Event, c: nat)
    requires Members(s) && Joining(s) && Enabled(s, e)
    requires c in s.calls && (s.calls[c].Started? || s.calls[c].Adding?) && e != Add(c)
    ensures NewlyMade(Next(s, e).subs, s.calls[c].subj, s.calls[c].i, c)
  {
    assert NewlyMade(s.subs, s.calls[c].subj, s.calls[c].i, c);
    if e.Add? { assert NewlyMade(s.subs, s.calls[e.c].subj, s.calls[e.c].i, e.c); }
    UnregisteredStays(s, e, s.calls[c].i);
  }

  predicate Joins(p: Phase) { p.Started? || p.Adding? }

  lemma SubscribeKeepsJoiners(s: State, e: Event, c: nat)
    requires OfSubscribe(e)
    requires Enabled(s, e) && c in Next(s, e).calls && Joins(Next(s, e).calls[c]) && e != Start(c)
    ensures c in s.calls && Joins(s.calls[c]) && e != Add(c)
    ensures s.calls[c].subj == Next(s, e).calls[c].subj && s.calls[c].i == Next(s, e).calls[c].i
  {
  }

  lemma PublishKeepsJoiners(s: State, e: Event, c: nat)
    requires OfPublish(e)
    requires Enabled(s, e) && c in Next(s, e).calls && Joins(Next(s, e).calls[c]) && e != Start(c)
    ensures c in s.calls && Joins(s.calls[c]) && e != Add(c)
    ensures s.calls[c].subj == Next(s, e).calls[c].subj && s.calls[c].i == Next(s, e).calls[c].i
  {
  }

  lemma CloseKeepsJoiners(s: State, e: Event, c: nat)
    requires !OfSubscribe(e) && !OfPublish(e)
    requires Enabled(s, e) && c in Next(s, e).calls && Joins(Next(s, e).calls[c]) && e != Start(c)
    ensures c in s.calls && Joins(s.calls[c]) && e != Add(c)
    ensures s.calls[c].subj == Next(s, e).calls[c].subj && s.calls[c].i == Next(s, e).calls[c].i
  {
  }

  lemma JoinersStay(s: State, e: Event, c: nat)
    requires Enabled(s, e) && c in Next(s, e).calls && Joins(Next(s, e).calls[c]) && e != Start(c)
    ensures c in s.calls && Joins(s.calls[c]) && e != Add(c)
    ensures s.calls[c].subj == Next(s, e).calls[c].subj && s.calls[c].i == Next(s, e).calls[c].i
  {
    if OfSubscribe(e) {
      SubscribeKeepsJoiners(s, e, c);
    } else if OfPublish(e) {
      PublishKeepsJoiners(s, e, c);
    } else {
      CloseKeepsJoiners(s, e, c);
    }
  }

  lemma SubscribeKeepsKnown(s: State, e: Event)
    requires OfSubscribe(e)
    requires KnowQueue(s) && Enabled(s, e)
    ensures KnowQueue(Next(s, e))
  {
  }

  lemma PublishKeepsKnown(s: State, e: Event)
    requires OfPublish(e)
    requires KnowQueue(s) && Enabled(s, e)
    ensures KnowQueue(Next(s, e))
  {
    QueuesStay(s, e);
  }

  lemma CloseKeepsKnown(s: State, e: Event)
    requires !OfSubscribe(e) && !OfPublish(e)
    requires KnowQueue(s) && Enabled(s, e)
    ensures KnowQueue(Next(s, e))
  {
    QueuesStay(s, e);
  }

  lemma JoinersKnowQueue(s: State, e: Event)
    requires KnowQueue(s) && Enabled(s, e)
    ensures KnowQueue(Next(s, e))
  {
    if OfSubscribe(e) {
      SubscribeKeepsKnown(s, e);
    } else if OfPublish(e) {
      PublishKeepsKnown(s, e);
    } else {
      CloseKeepsKnown(s, e);
    }
  }

  lemma StepKeepsJoining(s: State, e: Event)
    requires Members(s) && Joining(s) && Enabled(s, e)
    ensures Joining(Next(s, e))
  {
    var t := Next(s, e);
    JoinersKnowQueue(s, e);
    forall i | 0 <= i < |t.subs| && !t.subs[i].registered ensures t.subs[i].sent == [] {
      NothingSentBeforeJoining(s, e, i);
    }
    forall c | c in t.calls && (t.calls[c].Started? || t.calls[c].Adding?)
      ensures NewlyMade(t.subs, t.calls[c].subj, t.calls[c].i, c)
    {
      if e != Start(c) {
        JoinersStay(s, e, c);
        NewlyMadeStays(s, e, c);
      }
    }
  }

  // ---- Sending, closing and waiting ----

  /** A publisher about to send finds the channel open: Close has not come to its queue. */
  lemma SendIsSafe(s: State, c: nat)
    requires Senders(s) && Shut(s) && Members(s) && Enabled(s, SendNext(c))
    ensures var i := s.queues[s.calls[c].subj].subs[s.calls[c].k]; i < |s.subs| && !s.subs[i].inClosed
  {
  }

  lemma StepKeepsPipes(s: State, e: Event)
    requires Pipes(s) && Senders(s) && Shut(s) && Members(s) && Enabled(s, e)
    ensures Pipes(Next(s, e))
  {
    var t := Next(s, e);
    if e.SendNext? {
      SendIsSafe(s, e.c);
      var i := s.queues[s.calls[e.c].subj].subs[s.calls[e.c].k];
      SendKeepsPipe(s.subs[i], Msg(e.c));
    } else if e.Work? {
      MoveKeepsPipe(s.subs[e.i], e.move);
    } else if Changes(e) {
      ChangesKeepPipes(s, e);
    } else if !e.Start? {
      SubsStay(s, e);
    }
  }

  lemma ChangesKeepPipes(s: State, e: Event)
    requires Pipes(s) && Changes(e) && Enabled(s, e)
    ensures Pipes(Next(s, e))
  {
    var t := Next(s, e);
    forall i | 0 <= i < |t.subs| ensures PipeInv(t.subs[i]) {
      assert PipeInv(s.subs[i]);
    }
  }

  lemma QuietStays(s: State, e: Event, i: nat)
    requires Enabled(s, e) && !e.SendNext? && i < |s.subs| && Quiet(s.subs[i])
    ensures i < |Next(s, e).subs| && Quiet(Next(s, e).subs[i])
  {
    if !Changes(e) && !e.Start? && !e.Work? { SubsStay(s, e); }
  }

  lemma NobodySendsAfterClose(s: State, e: Event)
    requires Senders(s) && Shut(s) && Enabled(s, e)
    ensures s.closed ==> !e.SendNext?
  {
  }

  lemma NewcomersAreQuiet(s: State, e: Event, i: nat)
    requires Enabled(s, e) && |s.subs| <= i < |Next(s, e).subs|
    ensures Quiet(Next(s, e).subs[i])
  {
  }

  lemma SubscribeKeepsClosed(s: State, e: Event, c: nat)
    requires OfSubscribe(e)
    requires Enabled(s, e) && c in Next(s, e).calls
    ensures s.closed ==> Next(s, e).closed
    ensures AfterWait(Next(s, e).calls[c]) && !(c in s.calls && AfterWait(s.calls[c])) ==> e == Wait(c)
    ensures Next(s, e).calls[c].Waiting? && !(c in s.calls && s.calls[c].Waiting?) ==> e == EndClose(c)
  {
  }

  lemma PublishKeepsClosed(s: State, e: Event, c: nat)
    requires OfPublish(e)
    requires Enabled(s, e) && c in Next(s, e).calls
    ensures s.closed ==> Next(s, e).closed
    ensures AfterWait(Next(s, e).calls[c]) && !(c in s.calls && AfterWait(s.calls[c])) ==> e == Wait(c)
    ensures Next(s, e).calls[c].Waiting? && !(c in s.calls && s.calls[c].Waiting?) ==> e == EndClose(c)
  {
  }

  lemma CloseKeepsClosed(s: State, e: Event, c: nat)
    requires !OfSubscribe(e) && !OfPublish(e)
    requires Enabled(s, e) && c in Next(s, e).calls
    ensures s.closed ==> Next(s, e).closed
    ensures AfterWait(Next(s, e).calls[c]) && !(c in s.calls && AfterWait(s.calls[c])) ==> e == Wait(c)
    ensures Next(s, e).calls[c].Waiting? && !(c in s.calls && s.calls[c].Waiting?) ==> e == EndClose(c)
  {
  }

  lemma ClosedForGood(s: State, e: Event, c: nat)
    requires Enabled(s, e) && c in Next(s, e).calls
    ensures s.closed ==> Next(s, e).closed
    ensures AfterWait(Next(s, e).calls[c]) && !(c in s.calls && AfterWait(s.calls[c])) ==> e == Wait(c)
    ensures Next(s, e).calls[c].Waiting? && !(c in s.calls && s.calls[c].Waiting?) ==> e == EndClose(c)
  {
    if OfSubscribe(e) {
      SubscribeKeepsClosed(s, e, c);
    } else if OfPublish(e) {
      PublishKeepsClosed(s, e, c);
    } else {
      CloseKeepsClosed(s, e, c);
    }
  }

  lemma StepKeepsEnded(s: State, e: Event)
    requires Ended(s) && Senders(s) && Shut(s) && Enabled(s, e)
    ensures Ended(Next(s, e))
  {
    var t := Next(s, e);
    forall c | c in t.calls && (t.calls[c].Waiting? || AfterWait(t.calls[c])) ensures t.closed {
      ClosedForGood(s, e, c);
    }
    forall c, i | c in t.calls && AfterWait(t.calls[c]) && 0 <= i < |t.subs| ensures Quiet(t.subs[i]) {
      ClosedForGood(s, e, c);
      if i < |s.subs| {
        assert Quiet(s.subs[i]);
        NobodySendsAfterClose(s, e);
        QuietStays(s, e, i);
      } else {
        NewcomersAreQuiet(s, e, i);
      }
    }
  }

  // ---- Each message once ----

  /** Only publishers that reached their queue have sent anything. */
  ghost predicate FromPublishers(s: State) {
    forall i, m :: 0 <= i < |s.subs| && m in s.subs[i].sent ==> HasSent(s.calls, m.call)
  }

  predicate HasSent(calls: map<nat, Phase>, c: nat) { c in calls && (calls[c].Sending? || calls[c].Done?) }

  /** How often subscriber `i` was sent the message of `c`. */
  ghost function Times(subs: seq<Sub>, i: nat, c: nat): nat
    requires i < |subs|
  {
    multiset(subs[i].sent)[Msg(c)]
  }

  ghost predicate ServedOnce(s: State, c: nat, ids: seq<nat>, k: nat) {
    forall j :: 0 <= j < |ids| ==> ids[j] < |s.subs| && Times(s.subs, ids[j], c) == if j < k then 1 else 0
  }

  /** A publisher has sent its message once to each subscriber it has passed, and to no other of its list. */
  ghost predicate Once(s: State) {
    forall c :: c in s.calls && s.calls[c].Sending? ==>
      s.calls[c].subj in s.queues && ServedOnce(s, c, s.queues[s.calls[c].subj].subs, s.calls[c].k)
  }

  lemma SentTo(s: State, c: nat, i: nat)
    requires Enabled(s, SendNext(c)) && i < |s.subs|
    ensures |Next(s, SendNext(c)).subs| == |s.subs|
    ensures i == s.queues[s.calls[c].subj].subs[s.calls[c].k] ==>
      Next(s, SendNext(c)).subs[i].sent == s.subs[i].sent + [Msg(c)]
    ensures i != s.queues[s.calls[c].subj].subs[s.calls[c].k] ==>
      Next(s, SendNext(c)).subs[i].sent == s.subs[i].sent
  {
  }

  lemma SubscribeKeepsSent(s: State, e: Event, c: nat)
    requires OfSubscribe(e)
    requires Enabled(s, e)
    ensures HasSent(s.calls, c) ==> HasSent(Next(s, e).calls, c)
  {
  }

  lemma PublishKeepsSent(s: State, e: Event, c: nat)
    requires OfPublish(e)
    requires Enabled(s, e)
    ensures HasSent(s.calls, c) ==> HasSent(Next(s, e).calls, c)
  {
  }

  lemma CloseKeepsSent(s: State, e: Event, c: nat)
    requires !OfSubscribe(e) && !OfPublish(e)
    requires Enabled(s, e)
    ensures HasSent(s.calls, c) ==> HasSent(Next(s, e).calls, c)
  {
  }

  lemma HasSentStays(s: State, e: Event, c: nat)
    requires Enabled(s, e)
    ensures HasSent(s.calls, c) ==> HasSent(Next(s, e).calls, c)
  {
    if OfSubscribe(e) {
      SubscribeKeepsSent(s, e, c);
    } else if OfPublish(e) {
      PublishKeepsSent(s, e, c);
    } else {
      CloseKeepsSent(s, e, c);
    }
  }

  lemma StepKeepsFromPublishers(s: State, e: Event)
    requires FromPublishers(s) && Enabled(s, e)
    ensures FromPublishers(Next(s, e))
  {
    var t := Next(s, e);
    forall i, m | 0 <= i < |t.subs| && m in t.subs[i].sent ensures HasSent(t.calls, m.call) {
      HasSentStays(s, e, m.call);
      if i < |s.subs| {
        if e.SendNext? { SentTo(s, e.c, i); } else { SentStays(s, e, i); }
      }
    }
  }

  lemma SubscribeKeepsList(s: State, e: Event, subj: Subject, c: nat)
    requires OfSubscribe(e)
    requires Enabled(s, e) && subj in s.queues && c in s.queues[subj].readers
    ensures subj in Next(s, e).queues && Next(s, e).queues[subj].subs == s.queues[subj].subs
  {
  }

  lemma PublishKeepsList(s: State, e: Event, subj: Subject, c: nat)
    requires OfPublish(e)
    requires Enabled(s, e) && subj in s.queues && c in s.queues[subj].readers
    ensures subj in Next(s, e).queues && Next(s, e).queues[subj].subs == s.queues[subj].subs
  {
  }

  lemma CloseKeepsList(s: State, e: Event, subj: Subject, c: nat)
    requires !OfSubscribe(e) && !OfPublish(e)
    requires Enabled(s, e) && subj in s.queues && c in s.queues[subj].readers
    ensures subj in Next(s, e).queues && Next(s, e).queues[subj].subs == s.queues[subj].subs
  {
  }

  /** While a publisher holds its queue, the list stays as it is. */
  lemma ListIsHeld(s: State, e: Event, subj: Subject, c: nat)
    requires Enabled(s, e) && subj in s.queues && c in s.queues[subj].readers
    ensures subj in Next(s, e).queues && Next(s, e).queues[subj].subs == s.queues[subj].subs
  {
    if OfSubscribe(e) {
      SubscribeKeepsList(s, e, subj, c);
    } else if OfPublish(e) {
      PublishKeepsList(s, e, subj, c);
    } else {
      CloseKeepsList(s, e, subj, c);
    }
  }

  lemma SubscribeKeepsSending(s: State, e: Event, c: nat)
    requires OfSubscribe(e)
    requires Enabled(s, e) && c in Next(s, e).calls && Next(s, e).calls[c].Sending?
    ensures e == LockQueue(c) || e == SendNext(c) || (c in s.calls && s.calls[c] == Next(s, e).calls[c])
  {
  }

  lemma PublishKeepsSending(s: State, e: Event, c: nat)
    requires OfPublish(e)
    requires Enabled(s, e) && c in Next(s, e).calls && Next(s, e).calls[c].Sending?
    ensures e == LockQueue(c) || e == SendNext(c) || (c in s.calls && s.calls[c] == Next(s, e).calls[c])
  {
  }

  lemma CloseKeepsSending(s: State, e: Event, c: nat)
    requires !OfSubscribe(e) && !OfPublish(e)
    requires Enabled(s, e) && c in Next(s, e).calls && Next(s, e).calls[c].Sending?
    ensures e == LockQueue(c) || e == SendNext(c) || (c in s.calls && s.calls[c] == Next(s, e).calls[c])
  {
  }

  lemma SendersGoOn(s: State, e: Event, c: nat)
    requires Enabled(s, e) && c in Next(s, e).calls && Next(s, e).calls[c].Sending?
    ensures e == LockQueue(c) || e == SendNext(c) || (c in s.calls && s.calls[c] == Next(s, e).calls[c])
  {
    if OfSubscribe(e) {
      SubscribeKeepsSending(s, e, c);
    } else if OfPublish(e) {
      PublishKeepsSending(s, e, c);
    } else {
      CloseKeepsSending(s, e, c);
    }
  }

  lemma SendKeepsOnce(s: State, d: nat, c: nat)
    requires Once(s) && Senders(s) && Members(s) && Enabled(s, SendNext(d)) && c in s.calls && s.calls[c].Sending?
    ensures var t := Next(s, SendNext(d));
      ServedOnce(t, c, s.queues[s.calls[c].subj].subs, if c == d then s.calls[c].k + 1 else s.calls[c].k)
  {
    var t := Next(s, SendNext(d));
    var ids := s.queues[s.calls[c].subj].subs;
    assert ServedOnce(s, c, ids, s.calls[c].k);
    assert Distinct(ids);
    var k := if c == d then s.calls[c].k + 1 else s.calls[c].k;
    forall j | 0 <= j < |ids| ensures ids[j] < |t.subs| && Times(t.subs, ids[j], c) == if j < k then 1 else 0 {
      SentTo(s, d, ids[j]);
    }
  }

  lemma OtherStepKeepsOnce(s: State, e: Event, c: nat)
    requires Once(s) && Enabled(s, e) && !e.SendNext? && c in s.calls && s.calls[c].Sending?
    ensures ServedOnce(Next(s, e), c, s.queues[s.calls[c].subj].subs, s.calls[c].k)
  {
    var ids := s.queues[s.calls[c].subj].subs;
    forall j | 0 <= j < |ids|
      ensures ids[j] < |Next(s, e).subs| && Times(Next(s, e).subs, ids[j], c) == if j < s.calls[c].k then 1 else 0
    {
      SentStays(s, e, ids[j]);
    }
  }

  lemma OnlyFromPublishers(s: State, i: nat, m: Msg)
    requires FromPublishers(s) && i < |s.subs|
    ensures m in s.subs[i].sent ==> HasSent(s.calls, m.call)
  {
  }

  lemma LockStartsOnce(s: State, c: nat)
    requires FromPublishers(s) && Members(s) && Locks(s) && Enabled(s, LockQueue(c))
    ensures var t := Next(s, LockQueue(c)); ServedOnce(t, c, t.queues[s.calls[c].subj].subs, 0)
  {
    var ids := s.queues[s.calls[c].subj].subs;
    forall j | 0 <= j < |ids| ensures ids[j] < |s.subs| && Times(s.subs, ids[j], c) == 0 {
      MembersAreRegistered(s, s.calls[c].subj, ids[j]);
      OnlyFromPublishers(s, ids[j], Msg(c));
    }
  }

  lemma StepKeepsOnce(s: State, e: Event)
    requires Once(s) && FromPublishers(s) && Senders(s) && Members(s) && Locks(s) && Enabled(s, e)
    ensures Once(Next(s, e))
  {
    var t := Next(s, e);
    forall c | c in t.calls && t.calls[c].Sending?
      ensures t.calls[c].subj in t.queues && ServedOnce(t, c, t.queues[t.calls[c].subj].subs, t.calls[c].k)
    {
      SendersGoOn(s, e, c);
      if e == LockQueue(c) {
        LockStartsOnce(s, c);
      } else {
        ListIsHeld(s, e, s.calls[c].subj, c);
        if e.SendNext? { SendKeepsOnce(s, e.c, c); } else { OtherStepKeepsOnce(s, e, c); }
      }
    }
  }

  // ---- What holds in every run ----

  ghost predicate Inv(s: State) {
    Locks(s) && Senders(s) && Shut(s) && Members(s) && Joining(s) && Pipes(s) && Ended(s) && FromPublishers(s) &&
      Once(s)
  }

  lemma StepKeepsInv(s: State, e: Event)
    requires Inv(s) && Enabled(s, e)
    ensures Inv(Next(s, e))
  {
    StepKeepsLocks(s, e);
    StepKeepsSenders(s, e);
    StepKeepsShut(s, e);
    StepKeepsMembers(s, e);
    StepKeepsJoining(s, e);
    StepKeepsPipes(s, e);
    StepKeepsEnded(s, e);
    StepKeepsFromPublishers(s, e);
    StepKeepsOnce(s, e);
  }

  lemma {:induction false} RunsKeepInv(states: seq<State>, events: seq<Event>, n: nat)
    requires IsRun(states, events) && n < |states|
    ensures Inv(states[n])
  {
    if n > 0 {
      RunsKeepInv(states, events, n - 1);
      StepKeepsInv(states[n - 1], events[n - 1]);
    }
  }

  /** Publish never sends on a closed channel. */
  lemma NeverSendsOnClosed(states: seq<State>, events: seq<Event>, n: nat)
    requires IsRun(states, events) && n < |events| && events[n].SendNext?
    ensures var s := states[n];
      var i := s.queues[s.calls[events[n].c].subj].subs[s.calls[events[n].c].k];
      i < |s.subs| && !s.subs[i].inClosed
  {
    RunsKeepInv(states, events, n);
    SendIsSafe(states[n], events[n].c);
  }

  /** The channels a step closes. */
  function Closes(s: State, e: Event): set<nat>
    requires Enabled(s, e)
  {
    match e
    case Add(c) => if s.closed then {s.calls[c].i} else {}
    case Leave(c) =>
      var i := s.calls[c].i;
      if i in s.queues[s.subs[i].subj].subs then {i} else {}
    case CloseQueue(c, subj) => set i | i in s.queues[subj].subs
    case _ => {}
  }

  /** No channel is closed twice, whichever of Unsubscribe, Close and a late Subscribe closes it. */
  lemma NeverClosesTwice(states: seq<State>, events: seq<Event>, n: nat, i: nat)
    requires IsRun(states, events) && n < |events| && i in Closes(states[n], events[n])
    ensures i < |states[n].subs| && !states[n].subs[i].inClosed
  {
    RunsKeepInv(states, events, n);
    var s := states[n];
    match events[n]
    case Add(c) =>
      assert NewlyMade(s.subs, s.calls[c].subj, s.calls[c].i, c);
    case Leave(c) =>
      MembersAreRegistered(s, s.subs[i].subj, i);
    case CloseQueue(c, subj) =>
      MembersAreRegistered(s, subj, i);
  }

  /**
   * Each subscriber's messages form a queue from the sends to the callback: nothing lost, doubled or
   * overtaken, for any interleaving of publishers, subscribers, leavers and closers.
   */
  lemma FifoPerSubscriber(states: seq<State>, events: seq<Event>, n: nat, i: nat)
    requires IsRun(states, events) && n < |states| && i < |states[n].subs|
    ensures var b := states[n].subs[i];
      b.taken + b.out + b.buf + b.inq == b.sent && b.delivered <= b.sent
  {
    RunsKeepInv(states, events, n);
    DeliveredIsPrefix(states[n].subs[i]);
  }

  /**
   * Once Close has returned nil, and ever after, all that was sent to a subscriber that never left was given
   * to its callback.
   */
  lemma CloseDelivers(states: seq<State>, events: seq<Event>, n: nat, c: nat, i: nat)
    requires IsRun(states, events) && n < |states| && c in states[n].calls && states[n].calls[c].ClosedInTime?
    requires i < |states[n].subs| && states[n].subs[i].alive
    ensures states[n].subs[i].delivered == states[n].subs[i].sent
  {
    RunsKeepInv(states, events, n);
    var b := states[n].subs[i];
    assert Quiet(b);
    if Finished(b) { FinishedMeansDelivered(b); } else { DeliveredIsPrefix(b); }
  }

  /** When Publish returns, each subscriber of its list has been sent the message exactly once. */
  lemma PublishServesAll(states: seq<State>, events: seq<Event>, n: nat, i: nat)
    requires IsRun(states, events) && n < |events| && events[n].EndPublish?
    requires i in states[n].queues[states[n].calls[events[n].c].subj].subs
    ensures i < |states[n].subs| && multiset(states[n].subs[i].sent)[Msg(events[n].c)] == 1
  {
    RunsKeepInv(states, events, n);
    EndOfPublish(states[n], events[n].c, i);
  }

  lemma EndOfPublish(s: State, c: nat, i: nat)
    requires Once(s) && Enabled(s, EndPublish(c)) && i in s.queues[s.calls[c].subj].subs
    ensures i < |s.subs| && Times(s.subs, i, c) == 1
  {
  }

}
