/** pubsub/my_pubsub.go: what each call of the bus comes to, over whole runs. */
module PubSubCalls {
  import opened PubSubPipe
  import opened PubSubState
  import opened PubSubSafe

  // ---- A step of one call leaves the others where they are ----

  lemma SubscribeKeepsOthers(s: State, e: Event, c: nat)
    requires OfSubscribe(e) && Enabled(s, e) && c in s.calls && e.c != c
    ensures c in Next(s, e).calls && Next(s, e).calls[c] == s.calls[c]
  {
  }

  lemma PublishKeepsOthers(s: State, e: Event, c: nat)
    requires OfPublish(e) && Enabled(s, e) && c in s.calls && e.c != c
    ensures c in Next(s, e).calls && Next(s, e).calls[c] == s.calls[c]
  {
  }

  lemma CloseKeepsOthers(s: State, e: Event, c: nat)
    requires !OfSubscribe(e) && !OfPublish(e) && Enabled(s, e) && c in s.calls && (e.Work? || e.c != c)
    ensures c in Next(s, e).calls && Next(s, e).calls[c] == s.calls[c]
  {
  }

  lemma OthersStay(s: State, e: Event, c: nat)
    requires Enabled(s, e) && c in s.calls && (e.Work? || e.c != c)
    ensures c in Next(s, e).calls && Next(s, e).calls[c] == s.calls[c]
  {
    if OfSubscribe(e) {
      SubscribeKeepsOthers(s, e, c);
    } else if OfPublish(e) {
      PublishKeepsOthers(s, e, c);
    } else {
      CloseKeepsOthers(s, e, c);
    }
  }

  // ---- Publish ----

  /** A Publish of `c` to `subj` that is still going on, was refused, or has reached subscriber `i` once. */
  ghost predicate PublishTo(s: State, c: nat, subj: Subject, i: nat) {
    c in s.calls && i < |s.subs| &&
    match s.calls[c]
    case Publishing(own) => own == subj
    case Locked(own) => own == subj
    case Sending(own, _) => own == subj
    case Done => Times(s.subs, i, c) == 1
    case Refused => true
    case _ => false
  }

  lemma PublisherGoesOn(s: State, e: Event, c: nat, subj: Subject, i: nat)
    requires Inv(s) && Enabled(s, e) && PublishTo(s, c, subj, i) && !e.Work? && e.c == c
    requires subj in s.queues && i in s.queues[subj].subs
    ensures PublishTo(Next(s, e), c, subj, i)
  {
    if e.EndPublish? { EndOfPublish(s, c, i); }
    if e.SendNext? { SentTo(s, c, i); }
  }

  lemma TimesStay(s: State, e: Event, c: nat, i: nat)
    requires Enabled(s, e) && i < |s.subs| && !(e.SendNext? && e.c == c)
    ensures i < |Next(s, e).subs| && Times(Next(s, e).subs, i, c) == Times(s.subs, i, c)
  {
    if e.SendNext? { SentTo(s, e.c, i); } else { SentStays(s, e, i); }
  }

  lemma PublishGoesOn(s: State, e: Event, c: nat, subj: Subject, i: nat)
    requires Inv(s) && Enabled(s, e) && PublishTo(s, c, subj, i)
    requires subj in s.queues && i in s.queues[subj].subs
    ensures PublishTo(Next(s, e), c, subj, i)
  {
    if !e.Work? && e.c == c {
      PublisherGoesOn(s, e, c, subj, i);
    } else {
      OthersStay(s, e, c);
      TimesStay(s, e, c, i);
    }
  }

  lemma PublishBegins(s: State, c: nat, subj: Subject, i: nat)
    requires Members(s) && Enabled(s, BeginPublish(c, subj)) && subj in s.queues && i in s.queues[subj].subs
    ensures PublishTo(Next(s, BeginPublish(c, subj)), c, subj, i)
  {
    MembersAreRegistered(s, subj, i);
  }

  /** `i` is in the list of `subj` from state `m` to state `n`. */
  ghost predicate ListedFrom(states: seq<State>, m: nat, n: nat, subj: Subject, i: nat)
    requires n < |states|
  {
    forall j :: m <= j <= n ==> subj in states[j].queues && i in states[j].queues[subj].subs
  }

  lemma {:induction false} PublishReachesOn(states: seq<State>, events: seq<Event>, m: nat, n: nat, c: nat,
                                            subj: Subject, i: nat)
    requires IsRun(states, events) && m < n < |states| && events[m] == BeginPublish(c, subj)
    requires ListedFrom(states, m, n, subj, i)
    ensures PublishTo(states[n], c, subj, i)
    decreases n
  {
    RunsKeepInv(states, events, n - 1);
    if m + 1 < n {
      PublishReachesOn(states, events, m, n - 1, c, subj, i);
      PublishGoesOn(states[n - 1], events[n - 1], c, subj, i);
    } else {
      PublishBegins(states[m], c, subj, i);
    }
  }

  /** Whoever is in the subject's list from the call of Publish until it returns was sent the message, exactly once. */
  lemma PublishReaches(states: seq<State>, events: seq<Event>, m: nat, n: nat, c: nat, subj: Subject, i: nat)
    requires IsRun(states, events) && m < n < |states| && events[m] == BeginPublish(c, subj)
    requires ListedFrom(states, m, n, subj, i) && c in states[n].calls && states[n].calls[c].Done?
    ensures i < |states[n].subs| && multiset(states[n].subs[i].sent)[Msg(c)] == 1
  {
    PublishReachesOn(states, events, m, n, c, subj, i);
  }

  // ---- Refusals ----

  predicate AtClose(p: Phase) {
    p.Closing? || p.Shutting? || p.Waiting? || p.Waited? || p.ClosedInTime? || p.ClosedLate?
  }

  /** Nothing is refused and nothing closed before a Close has begun. */
  ghost predicate CancelledFirst(s: State) {
    (s.closed ==> s.cancelled) && forall c :: c in s.calls && (s.calls[c].Refused? || AtClose(s.calls[c])) ==>
      s.cancelled
  }

  lemma SubscribeKeepsCancelled(s: State, e: Event)
    requires OfSubscribe(e) && CancelledFirst(s) && Enabled(s, e)
    ensures CancelledFirst(Next(s, e))
  {
  }

  lemma PublishKeepsCancelled(s: State, e: Event)
    requires OfPublish(e) && CancelledFirst(s) && Enabled(s, e)
    ensures CancelledFirst(Next(s, e))
  {
  }

  lemma CloseKeepsCancelled(s: State, e: Event)
    requires !OfSubscribe(e) && !OfPublish(e) && CancelledFirst(s) && Enabled(s, e)
    ensures CancelledFirst(Next(s, e))
  {
  }

  /** A call of Publish or Subscribe is refused only on a bus somebody is closing. */
  lemma {:induction false} RefusedOnlyWhenClosing(states: seq<State>, events: seq<Event>, n: nat, c: nat)
    requires IsRun(states, events) && n < |states|
    ensures CancelledFirst(states[n])
    ensures c in states[n].calls && states[n].calls[c].Refused? ==> states[n].cancelled
    decreases n
  {
    if n > 0 {
      RefusedOnlyWhenClosing(states, events, n - 1, c);
      var s, e := states[n - 1], events[n - 1];
      if OfSubscribe(e) {
        SubscribeKeepsCancelled(s, e);
      } else if OfPublish(e) {
        PublishKeepsCancelled(s, e);
      } else {
        CloseKeepsCancelled(s, e);
      }
    }
  }

  lemma {:induction false} CancelledStays(states: seq<State>, events: seq<Event>, m: nat, n: nat)
    requires IsRun(states, events) && m <= n < |states| && states[m].cancelled
    ensures states[n].cancelled
    decreases n - m
  {
    if m < n {
      CancelledForGood(states[m], events[m]);
      CancelledStays(states, events, m + 1, n);
    }
  }

  lemma CancelledForGood(s: State, e: Event)
    requires Enabled(s, e) && (s.cancelled || e.BeginClose?)
    ensures Next(s, e).cancelled
  {
  }

  /** Once a Close has begun, every new Publish and Subscribe is refused. */
  lemma LateCallsAreRefused(states: seq<State>, events: seq<Event>, m: nat, n: nat)
    requires IsRun(states, events) && m < n < |events| && events[m].BeginClose?
    requires events[n].BeginPublish? || events[n].BeginSubscribe?
    ensures events[n].c in states[n + 1].calls && states[n + 1].calls[events[n].c].Refused?
  {
    CancelledForGood(states[m], events[m]);
    CancelledStays(states, events, m + 1, n);
  }
}
