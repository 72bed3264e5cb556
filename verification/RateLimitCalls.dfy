/** ratelimit/ratelimit.go: what each call of Acquire and Stop comes to. */
module RateLimitCalls {
  import opened RateLimitState
  import opened RateLimitLeftovers

  // ---- A call takes one token, or none if it gives up ----

  function TakesOf(s: State, c: nat): set<nat> { set k: nat | k < |s.takes| && s.takes[k].call == c }

  /** The tokens a call has taken, by where it is. */
  ghost predicate Tally(s: State, c: nat) {
    if c !in s.calls then TakesOf(s, c) == {}
    else
      match s.calls[c]
      case Holding(k) => TakesOf(s, c) == {k}
      case Served => |TakesOf(s, c)| == 1
      case Counted => |TakesOf(s, c)| <= 1
      case Finished => |TakesOf(s, c)| <= 1
      case _ => TakesOf(s, c) == {}
  }

  lemma GrabAddsOne(s: State, c: nat, d: nat)
    requires Enabled(s, Grab(c))
    ensures TakesOf(Next(s, Grab(c)), d) == TakesOf(s, d) + if c == d then {|s.takes|} else {}
  {
  }

  lemma OthersAddNone(s: State, e: Event, d: nat)
    requires Enabled(s, e) && !e.Grab?
    ensures TakesOf(Next(s, e), d) == TakesOf(s, d)
  {
    var t := Next(s, e);
    assert |t.takes| == |s.takes| && forall k :: 0 <= k < |s.takes| ==> t.takes[k].call == s.takes[k].call;
  }

  lemma StepKeepsTally(s: State, e: Event, c: nat)
    requires Tally(s, c) && Enabled(s, e)
    ensures Tally(Next(s, e), c)
  {
    if e.Grab? { GrabAddsOne(s, e.c, c); } else { OthersAddNone(s, e, c); }
  }

  lemma {:induction false} RunsKeepTally(states: seq<State>, events: seq<Event>, n: nat, c: nat)
    requires IsRun(states, events) && n < |states|
    ensures Tally(states[n], c)
  {
    if n > 0 {
      RunsKeepTally(states, events, n - 1, c);
      StepKeepsTally(states[n - 1], events[n - 1], c);
    }
  }

  /** Out of the select for good, a call takes no more tokens. */
  predicate BeyondSelect(s: State, c: nat) { c in s.calls && !s.calls[c].Selecting? }

  lemma BeyondSelectStays(s: State, e: Event, c: nat)
    requires Enabled(s, e) && BeyondSelect(s, c)
    ensures BeyondSelect(Next(s, e), c) && TakesOf(Next(s, e), c) == TakesOf(s, c)
  {
    if e.Grab? { GrabAddsOne(s, e.c, c); } else { OthersAddNone(s, e, c); }
  }

  lemma {:induction false} TakesStay(states: seq<State>, events: seq<Event>, m: nat, n: nat, c: nat)
    requires IsRun(states, events) && m <= n < |states| && BeyondSelect(states[m], c)
    ensures BeyondSelect(states[n], c) && TakesOf(states[n], c) == TakesOf(states[m], c)
    decreases n - m
  {
    if m < n {
      BeyondSelectStays(states[m], events[m], c);
      TakesStay(states, events, m + 1, n, c);
    }
  }

  /**
   * An Acquire is admitted exactly if no Stop came before it. One that is served has taken exactly one
   * token, one that gives up has taken none, and this stays so.
   */
  lemma AcquireTakesOne(states: seq<State>, events: seq<Event>, m: nat, n: nat, c: nat)
    requires IsRun(states, events) && m < n < |states|
    ensures events[m] == Enter(c) ==> At(states[m + 1], c, if states[m].stopped then Rejected else Selecting)
    ensures At(states[m], c, Served) ==> |TakesOf(states[n], c)| == 1
    ensures At(states[m], c, Cancelled) ==> TakesOf(states[n], c) == {}
  {
    assert states[m + 1] == Next(states[m], events[m]);
    RunsKeepTally(states, events, m, c);
    if BeyondSelect(states[m], c) { TakesStay(states, events, m, n, c); }
  }

  // ---- Nobody waits for ever ----

  /** A step of a call or of a timer that has gone off, without anybody giving up. */
  predicate Advances(e: Event) {
    e.Grab? || e.Arm? || e.Count? || e.Check? || e.Release? || e.Fire?
  }

  ghost predicate CanAdvance(s: State) { exists e :: Advances(e) && Enabled(s, e) }

  /** A timer will go off within the interval. */
  ghost predicate TimerRuns(s: State) {
    exists k: nat :: IsArmedAt(s, k) && s.takes[k].status.deadline <= s.now + s.interval
  }

  lemma {:induction false} SomeIsOut(takes: seq<Take>) returns (k: nat)
    requires Total(takes, Out) > 0
    ensures k < |takes| && Out(takes[k].status)
  {
    var n := |takes| - 1;
    if Out(takes[n].status) { k := n; } else { k := SomeIsOut(takes[..n]); }
  }

  /** A token that is out is on its way back. */
  lemma TokenComesBack(s: State, k: nat)
    requires Owned(s) && Shutdown(s) && DeadlinesNear(s) && !s.closed && k < |s.takes| && Out(s.takes[k].status)
    ensures CanAdvance(s) || TimerRuns(s)
  {
    match s.takes[k].status
    case Held => assert Enabled(s, Arm(s.takes[k].call));
    case Running => assert Enabled(s, Fire(k));
    case Armed(_) => assert IsArmedAt(s, k);
  }

  lemma SelectingGoesOn(s: State, c: nat)
    requires Inv(s) && DeadlinesNear(s) && s.maxCount > 0 && At(s, c, Selecting)
    ensures CanAdvance(s) || TimerRuns(s)
  {
    if s.tokens > 0 {
      assert Enabled(s, Grab(c));
    } else {
      InFlightIsOpen(s, c);
      var k := SomeIsOut(s.takes);
      TokenComesBack(s, k);
    }
  }

  lemma InFlightIsOpen(s: State, c: nat)
    requires Counts(s) && Shutdown(s) && c in s.calls && InFlight(s.calls[c])
    ensures !s.closed && c in Flying(s.calls)
  {
    assert c in Flying(s.calls);
  }

  lemma FlyingGoesOn(s: State, c: nat)
    requires Inv(s) && DeadlinesNear(s) && s.maxCount > 0 && c in s.calls && InFlight(s.calls[c])
    ensures CanAdvance(s) || TimerRuns(s)
  {
    match s.calls[c]
    case Selecting => SelectingGoesOn(s, c);
    case Holding(k) => assert Enabled(s, Arm(c));
    case Served => assert Enabled(s, Count(c));
    case Cancelled => assert Enabled(s, Count(c));
  }

  lemma BlockedGoesOn(s: State, c: nat)
    requires Inv(s) && DeadlinesNear(s) && s.maxCount > 0 && At(s, c, Blocked)
    ensures CanAdvance(s) || TimerRuns(s)
  {
    if s.closed {
      assert Enabled(s, Release(c));
    } else if s.doneTaskCnt == s.taskCnt {
      var d :| d in s.calls && Checking(s.calls[d]);
      assert Enabled(s, Check(d));
    } else {
      assert Flying(s.calls) != {};
      var d :| d in Flying(s.calls);
      FlyingGoesOn(s, d);
    }
  }

  predicate Over(p: Phase) { p.Finished? || p.Rejected? || p.Released? }

  /**
   * In every run of a limiter with tokens: while some call of Acquire or Stop is unfinished, a call or a
   * callback can go on, or a timer goes off within the interval. Nobody has to give up for that.
   */
  lemma NobodyStarves(states: seq<State>, events: seq<Event>, n: nat, c: nat)
    requires IsRun(states, events) && n < |states| && states[n].maxCount > 0
    requires c in states[n].calls && !Over(states[n].calls[c])
    ensures CanAdvance(states[n]) || TimerRuns(states[n])
  {
    RunsKeepQueue(states, events, n);
    var s := states[n];
    if InFlight(s.calls[c]) {
      FlyingGoesOn(s, c);
    } else if s.calls[c].Blocked? {
      BlockedGoesOn(s, c);
    } else {
      assert Enabled(s, Check(c));
    }
  }
}
