/** pubsub/my_pubsub.go: what has been begun takes boundedly many steps, so every call ends once no more begin. */
module PubSubEffort {
  import opened Common
  import opened PubSubPipe
  import opened PubSubState
  import opened PubSubSafe
  import opened PubSubEnds

  // ---- How much is left to do ----

  /** The moves left to the goroutines of a subscriber: five for a message in its channel, fewer further on. */
  function Moves(b: Sub): nat {
    5 * |b.inq| + 4 * |b.buf| + 3 * |b.out| + (if b.worker.Got? then 2 else if b.worker.Calling? then 1 else 0) +
    (if b.pump.Running? then 2 else if b.pump.Draining? then 1 else 0) + (if b.worker.Gone? then 0 else 1)
  }

  function Backlog(subs: seq<Sub>): nat {
    if subs == [] then 0 else Backlog(subs[..|subs| - 1]) + Moves(subs[|subs| - 1])
  }

  /** The steps left to a call, if there are never more than `n` subscribers; a send makes work for others. */
  function Left(p: Phase, n: nat): nat {
    match p
    case Entering(_) => 8
    case Starting(_) => 6
    case Started(_, _) => 2
    case Adding(_, _) => 1
    case Publishing(_) => 6 * n + 3
    case Locked(_) => 6 * n + 2
    case Sending(_, k) => if k <= n then 6 * (n - k) + 1 else 1
    case Leaving(_) => 1
    case Closing => 4
    case Shutting => 3
    case Waiting => 2
    case Waited => 1
    case _ => 0
  }

  /** Summed over the calls numbered below `k`. */
  function LeftOfCalls(calls: map<nat, Phase>, k: nat, n: nat): nat {
    if k == 0 then 0 else LeftOfCalls(calls, k - 1, n) + if k - 1 in calls then Left(calls[k - 1], n) else 0
  }

  predicate Makes(p: Phase) { p.Entering? || p.Starting? }

  /** How many of the calls below `k` may still make a subscriber. */
  function Makers(calls: map<nat, Phase>, k: nat): nat {
    if k == 0 then 0 else Makers(calls, k - 1) + if k - 1 in calls && Makes(calls[k - 1]) then 1 else 0
  }

  predicate Below(calls: map<nat, Phase>, k: nat) { forall c :: c in calls ==> c < k }

  /** No more subscribers than this will there ever be, if no further call begins. */
  function Most(s: State, k: nat): nat { |s.subs| + Makers(s.calls, k) }

  function Effort(s: State, k: nat): nat {
    LeftOfCalls(s.calls, k, Most(s, k)) + Backlog(s.subs) + |s.queues.Keys - s.shut|
  }

  // ---- Sums ----

  lemma {:induction false} MoveCall(calls: map<nat, Phase>, c: nat, p: Phase, k: nat, n: nat)
    requires c in calls
    ensures c < k ==> LeftOfCalls(calls[c := p], k, n) + Left(calls[c], n) == LeftOfCalls(calls, k, n) + Left(p, n)
    ensures c >= k ==> LeftOfCalls(calls[c := p], k, n) == LeftOfCalls(calls, k, n)
  {
    if k > 0 { MoveCall(calls, c, p, k - 1, n); }
  }

  lemma {:induction false} MoveMaker(calls: map<nat, Phase>, c: nat, p: Phase, k: nat)
    requires c in calls
    ensures c < k ==> Makers(calls[c := p], k) + (if Makes(calls[c]) then 1 else 0) ==
                      Makers(calls, k) + (if Makes(p) then 1 else 0)
    ensures c >= k ==> Makers(calls[c := p], k) == Makers(calls, k)
  {
    if k > 0 { MoveMaker(calls, c, p, k - 1); }
  }

  lemma {:induction false} FewerSubscribers(calls: map<nat, Phase>, k: nat, m: nat, n: nat)
    requires m <= n
    ensures LeftOfCalls(calls, k, m) <= LeftOfCalls(calls, k, n)
  {
    if k > 0 { FewerSubscribers(calls, k - 1, m, n); }
  }

  lemma {:induction false} PutBacklog(subs: seq<Sub>, i: nat, b: Sub)
    requires i < |subs|
    ensures Backlog(subs[i := b]) + Moves(subs[i]) == Backlog(subs) + Moves(b)
  {
    var n := |subs| - 1;
    if i == n {
      assert subs[i := b][..n] == subs[..n];
    } else {
      assert subs[i := b][..n] == subs[..n][i := b];
      PutBacklog(subs[..n], i, b);
    }
  }

  lemma {:induction false} SameBacklog(a: seq<Sub>, b: seq<Sub>)
    requires |a| == |b| && forall i :: 0 <= i < |a| ==> Moves(a[i]) == Moves(b[i])
    ensures Backlog(a) == Backlog(b)
  {
    if a != [] { SameBacklog(a[..|a| - 1], b[..|b| - 1]); }
  }

  lemma MoveLowers(b: Sub, move: Move)
    requires CanMove(b, move)
    ensures Moves(Moved(b, move)) < Moves(b)
  {
  }

  // ---- Each step ----

  /** A call of the sum moves on; the number of subscribers to come does not rise. */
  lemma CallLowers(s: State, t: State, c: nat, p: Phase, k: nat)
    requires c in s.calls && c < k && t.calls == s.calls[c := p] && Most(t, k) <= Most(s, k)
    requires Left(p, Most(s, k)) + Backlog(t.subs) + |t.queues.Keys - t.shut| <
             Left(s.calls[c], Most(s, k)) + Backlog(s.subs) + |s.queues.Keys - s.shut|
    ensures Effort(t, k) < Effort(s, k)
  {
    MoveCall(s.calls, c, p, k, Most(s, k));
    FewerSubscribers(t.calls, k, Most(t, k), Most(s, k));
  }

  lemma EnsureMakesOneQueue(s: State, c: nat)
    requires Enabled(s, EnsureQueue(c))
    ensures var t := Next(s, EnsureQueue(c));
      t.subs == s.subs && |t.queues.Keys - t.shut| <= |s.queues.Keys - s.shut| + if t.calls[c].Starting? then 1 else 0
  {
    OneMoreQueue(s.queues.Keys, Next(s, EnsureQueue(c)).queues.Keys, s.shut, s.calls[c].subj);
  }

  lemma EnsureLowers(s: State, c: nat, k: nat)
    requires GoesOn(s, EnsureQueue(c)) && Below(s.calls, k)
    ensures Effort(Next(s, EnsureQueue(c)), k) < Effort(s, k)
  {
    var t := Next(s, EnsureQueue(c));
    MoveMaker(s.calls, c, t.calls[c], k);
    EnsureMakesOneQueue(s, c);
    CallLowers(s, t, c, t.calls[c], k);
  }

  lemma StartLowers(s: State, c: nat, k: nat)
    requires GoesOn(s, Event.Start(c)) && Below(s.calls, k)
    ensures Effort(Next(s, Event.Start(c)), k) < Effort(s, k)
  {
    var t := Next(s, Event.Start(c));
    MoveMaker(s.calls, c, t.calls[c], k);
    NewBacklog(s.subs, NewSub(s.calls[c].subj, c));
    CallLowers(s, t, c, t.calls[c], k);
  }

  lemma NewBacklog(subs: seq<Sub>, b: Sub)
    ensures Backlog(subs + [b]) == Backlog(subs) + Moves(b)
  {
    assert (subs + [b])[..|subs|] == subs;
  }

  /** The goroutines have as much to do as before, and no subject more or less is to be shut. */
  ghost predicate SameWork(s: State, t: State) {
    t.queues.Keys == s.queues.Keys && t.shut == s.shut && |t.subs| == |s.subs| &&
    forall i :: 0 <= i < |s.subs| ==> Moves(t.subs[i]) == Moves(s.subs[i])
  }

  /** A step that only moves its call on. */
  lemma PlainLowers(s: State, t: State, c: nat, p: Phase, k: nat)
    requires c in s.calls && c < k && t.calls == s.calls[c := p] && SameWork(s, t)
    requires !Makes(s.calls[c]) && !Makes(p) && Left(p, Most(s, k)) < Left(s.calls[c], Most(s, k))
    ensures Effort(t, k) < Effort(s, k)
  {
    MoveMaker(s.calls, c, p, k);
    SameBacklog(t.subs, s.subs);
    CallLowers(s, t, c, p, k);
  }

  lemma AddKeepsWork(s: State, c: nat)
    requires Enabled(s, Add(c))
    ensures SameWork(s, Next(s, Add(c)))
  {
  }

  lemma AddLowers(s: State, c: nat, k: nat)
    requires GoesOn(s, Add(c)) && Below(s.calls, k)
    ensures Effort(Next(s, Add(c)), k) < Effort(s, k)
  {
    var t := Next(s, Add(c));
    AddKeepsWork(s, c);
    PlainLowers(s, t, c, t.calls[c], k);
  }

  lemma LockToAddLowers(s: State, c: nat, k: nat)
    requires GoesOn(s, LockToAdd(c)) && Below(s.calls, k)
    ensures Effort(Next(s, LockToAdd(c)), k) < Effort(s, k)
  {
    var t := Next(s, LockToAdd(c));
    PlainLowers(s, t, c, t.calls[c], k);
  }

  lemma OneMoreQueue(was: set<Subject>, now: set<Subject>, shut: set<Subject>, subj: Subject)
    requires was <= now <= was + {subj}
    ensures |now - shut| <= |was - shut| + 1
  {
    SubsetIsSmall(now - shut, (was - shut) + {subj});
  }

  lemma {:induction false} SubsetIsSmall(a: set<Subject>, b: set<Subject>)
    requires a <= b
    ensures |a| <= |b|
  {
    assert b == a + (b - a);
  }

  function Upto(n: nat): (r: set<nat>)
    ensures |r| == n && forall i: nat :: i in r <==> i < n
  {
    if n == 0 then {} else Upto(n - 1) + {n - 1}
  }

  lemma {:induction false} DistinctFit(ids: seq<nat>, r: set<nat>)
    requires Distinct(ids) && forall j :: 0 <= j < |ids| ==> ids[j] in r
    ensures |ids| <= |r|
  {
    if ids != [] { DistinctFit(ids[1..], r - {ids[0]}); }
  }

  /** A list names each subscriber at most once. */
  lemma ListIsShort(s: State, subj: Subject)
    requires Members(s) && subj in s.queues
    ensures |s.queues[subj].subs| <= |s.subs|
  {
    var ids := s.queues[subj].subs;
    forall j | 0 <= j < |ids| ensures ids[j] in Upto(|s.subs|) { MembersAreRegistered(s, subj, ids[j]); }
    DistinctFit(ids, Upto(|s.subs|));
  }

  lemma SendLowers(s: State, c: nat, k: nat)
    requires Members(s) && GoesOn(s, SendNext(c)) && Below(s.calls, k)
    ensures Effort(Next(s, SendNext(c)), k) < Effort(s, k)
  {
    var t := Next(s, SendNext(c));
    var i := s.queues[s.calls[c].subj].subs[s.calls[c].k];
    ListIsShort(s, s.calls[c].subj);
    MoveMaker(s.calls, c, t.calls[c], k);
    PutBacklog(s.subs, i, Send(s.subs[i], Msg(c)));
    CallLowers(s, t, c, t.calls[c], k);
  }

  lemma LockToReadLowers(s: State, c: nat, k: nat)
    requires GoesOn(s, LockToRead(c)) && Below(s.calls, k)
    ensures Effort(Next(s, LockToRead(c)), k) < Effort(s, k)
  {
    var t := Next(s, LockToRead(c));
    PlainLowers(s, t, c, t.calls[c], k);
  }

  lemma LockQueueLowers(s: State, c: nat, k: nat)
    requires Locks(s) && GoesOn(s, LockQueue(c)) && Below(s.calls, k)
    ensures Effort(Next(s, LockQueue(c)), k) < Effort(s, k)
  {
    var t := Next(s, LockQueue(c));
    assert s.calls[c].subj in s.queues;
    assert t.queues.Keys == s.queues.Keys;
    PlainLowers(s, t, c, t.calls[c], k);
  }

  lemma EndPublishLowers(s: State, c: nat, k: nat)
    requires GoesOn(s, EndPublish(c)) && Below(s.calls, k)
    ensures Effort(Next(s, EndPublish(c)), k) < Effort(s, k)
  {
    var t := Next(s, EndPublish(c));
    assert t.queues.Keys == s.queues.Keys;
    PlainLowers(s, t, c, t.calls[c], k);
  }

  lemma LeaveKeepsWork(s: State, c: nat)
    requires Enabled(s, Leave(c))
    ensures SameWork(s, Next(s, Leave(c)))
  {
  }

  lemma LeaveLowers(s: State, c: nat, k: nat)
    requires GoesOn(s, Leave(c)) && Below(s.calls, k)
    ensures Effort(Next(s, Leave(c)), k) < Effort(s, k)
  {
    var t := Next(s, Leave(c));
    LeaveKeepsWork(s, c);
    PlainLowers(s, t, c, t.calls[c], k);
  }

  /** A step that moves no call on. */
  lemma BackgroundLowers(s: State, t: State, k: nat)
    requires t.calls == s.calls && |t.subs| == |s.subs|
    requires Backlog(t.subs) + |t.queues.Keys - t.shut| < Backlog(s.subs) + |s.queues.Keys - s.shut|
    ensures Effort(t, k) < Effort(s, k)
  {
    assert Most(t, k) == Most(s, k);
  }

  lemma CloseQueueLowers(s: State, c: nat, subj: Subject, k: nat)
    requires GoesOn(s, CloseQueue(c, subj))
    ensures Effort(Next(s, CloseQueue(c, subj)), k) < Effort(s, k)
  {
    var t := Next(s, CloseQueue(c, subj));
    SameBacklog(t.subs, s.subs);
    OneLess(s.queues.Keys, s.shut, subj);
    BackgroundLowers(s, t, k);
  }

  lemma OneLess(all: set<Subject>, shut: set<Subject>, subj: Subject)
    requires subj in all && subj !in shut
    ensures |all - (shut + {subj})| < |all - shut|
  {
    assert all - shut == (all - (shut + {subj})) + {subj};
  }

  lemma WorkLowers(s: State, i: nat, move: Move, k: nat)
    requires GoesOn(s, Work(i, move))
    ensures Effort(Next(s, Work(i, move)), k) < Effort(s, k)
  {
    var t := Next(s, Work(i, move));
    MoveLowers(s.subs[i], move);
    PutBacklog(s.subs, i, Moved(s.subs[i], move));
    BackgroundLowers(s, t, k);
  }

  lemma CloseLowers(s: State, e: Event, k: nat)
    requires e.LockToClose? || e.EndClose? || e.Wait? || e.ReturnNil? || e.ReturnLate?
    requires GoesOn(s, e) && Below(s.calls, k)
    ensures Effort(Next(s, e), k) < Effort(s, k)
  {
    var t := Next(s, e);
    PlainLowers(s, t, e.c, t.calls[e.c], k);
  }

  lemma SubscribeLowers(s: State, e: Event, k: nat)
    requires OfSubscribe(e) && GoesOn(s, e) && Below(s.calls, k)
    ensures Effort(Next(s, e), k) < Effort(s, k)
  {
    if e.EnsureQueue? {
      EnsureLowers(s, e.c, k);
    } else if e.Start? {
      StartLowers(s, e.c, k);
    } else if e.LockToAdd? {
      LockToAddLowers(s, e.c, k);
    } else {
      AddLowers(s, e.c, k);
    }
  }

  lemma PublishLowers(s: State, e: Event, k: nat)
    requires Members(s) && Locks(s) && OfPublish(e) && GoesOn(s, e) && Below(s.calls, k)
    ensures Effort(Next(s, e), k) < Effort(s, k)
  {
    if e.LockToRead? {
      LockToReadLowers(s, e.c, k);
    } else if e.LockQueue? {
      LockQueueLowers(s, e.c, k);
    } else if e.SendNext? {
      SendLowers(s, e.c, k);
    } else {
      EndPublishLowers(s, e.c, k);
    }
  }

  lemma StepLowers(s: State, e: Event, k: nat)
    requires Members(s) && Locks(s) && GoesOn(s, e) && Below(s.calls, k)
    ensures Effort(Next(s, e), k) < Effort(s, k)
  {
    if OfSubscribe(e) {
      SubscribeLowers(s, e, k);
    } else if OfPublish(e) {
      PublishLowers(s, e, k);
    } else if e.Leave? {
      LeaveLowers(s, e.c, k);
    } else if e.CloseQueue? {
      CloseQueueLowers(s, e.c, e.subj, k);
    } else if e.Work? {
      WorkLowers(s, e.i, e.move, k);
    } else {
      CloseLowers(s, e, k);
    }
  }

  lemma NoCallAppears(s: State, e: Event, k: nat)
    requires GoesOn(s, e) && Below(s.calls, k)
    ensures Below(Next(s, e).calls, k)
  {
  }

  lemma LastStepLowers(states: seq<State>, events: seq<Event>, j: nat, k: nat)
    requires IsRun(states, events) && j < |events| && !Begins(events[j]) && Below(states[j].calls, k)
    ensures Effort(states[j + 1], k) < Effort(states[j], k) && Below(states[j + 1].calls, k)
  {
    RunsKeepInv(states, events, j);
    StepLowers(states[j], events[j], k);
    NoCallAppears(states[j], events[j], k);
  }

  ghost predicate NoneBegins(events: seq<Event>, m: nat, n: nat)
    requires n <= |events|
  {
    forall j :: m <= j < n ==> !Begins(events[j])
  }

  /**
   * While no further call begins, a run has at most as many steps left as the effort says: so it comes to a
   * state in which nothing can go on, and there every call is over.
   */
  lemma {:induction false} RunsEnd(states: seq<State>, events: seq<Event>, m: nat, n: nat, k: nat)
    requires IsRun(states, events) && m <= n < |states| && Below(states[m].calls, k) && NoneBegins(events, m, n)
    ensures n - m + Effort(states[n], k) <= Effort(states[m], k) && Below(states[n].calls, k)
    decreases n - m
  {
    if m < n {
      LastStepLowers(states, events, m, k);
      RunsEnd(states, events, m + 1, n, k);
    }
  }

  lemma AtRestAllIsOver(states: seq<State>, events: seq<Event>, n: nat, c: nat)
    requires IsRun(states, events) && n < |states| && c in states[n].calls
    requires forall e :: Enabled(states[n], e) ==> Begins(e)
    ensures Over(states[n].calls[c])
  {
    if !Over(states[n].calls[c]) {
      var e := NoDeadlock(states, events, n, c);
    }
  }
}
