/** ratelimit/ratelimit.go as a state machine: one step for each mutex section, channel operation and timer event. */
module RateLimitState {
  /** What became of a token after it was taken. */
  datatype Status =
    | Held                   // its call has not armed a timer yet
    | Armed(deadline: real)  // the timer is set
    | Running                // the timer went off, the callback waits for the mutex
    | Returned               // the callback put the token back
    | Stopped                // the timer was stopped at shutdown

  datatype Take = Take(at: real, call: nat, status: Status)

  /** Where a call of Acquire or Stop is. */
  datatype Phase =
    | Selecting          // admitted, in the select
    | Holding(k: nat)    // has taken token `k`, timer not armed
    | Served | Cancelled // left the select for good, not yet counted as done
    | Counted            // counted as done, about to run checkTasksCompl
    | Finished | Rejected
    | Stopping           // Stop: flag set, about to run checkTasksCompl
    | Blocked            // Stop: waits on stopBlocker1
    | Released           // Stop has returned

  datatype State = State(
    maxCount: nat, interval: real,
    tokens: nat, taskCnt: nat, doneTaskCnt: nat, stopped: bool, queue: seq<nat>, closed: bool,
    now: real, takes: seq<Take>, calls: map<nat, Phase>)

  datatype Event =
    | Tick(to: real) | Enter(c: nat) | Grab(c: nat) | Cancel(c: nat) | Arm(c: nat) | Count(c: nat)
    | BeginStop(c: nat) | Check(c: nat) | Release(c: nat)
    | Expire(k: nat) | Fire(k: nat)

  function Initial(maxCount: nat, interval: real): State {
    State(maxCount, interval, maxCount, 0, 0, false, [], false, 0.0, [], map[])
  }

  predicate At(s: State, c: nat, p: Phase) { c in s.calls && s.calls[c] == p }

  predicate Checking(p: Phase) { p.Counted? || p.Stopping? }

  predicate InFlight(p: Phase) { p.Selecting? || p.Holding? || p.Served? || p.Cancelled? }

  /** When the scheduler, the runtime's timers or the clock may take the step. */
  predicate Enabled(s: State, e: Event) {
    match e
    case Tick(to) => s.now <= to
    case Enter(c) => c !in s.calls
    case Grab(c) => At(s, c, Selecting) && s.tokens > 0
    case Cancel(c) => At(s, c, Selecting)
    case Arm(c) => c in s.calls && s.calls[c].Holding? && s.calls[c].k < |s.takes|
    case Count(c) => At(s, c, Served) || At(s, c, Cancelled)
    case BeginStop(c) => c !in s.calls
    case Check(c) => c in s.calls && Checking(s.calls[c])
    case Release(c) => At(s, c, Blocked) && s.closed
    case Expire(k) => k < |s.takes| && s.takes[k].status.Armed? && s.takes[k].status.deadline <= s.now
    case Fire(k) => k < |s.takes| && s.takes[k].status.Running?
  }

  function Mark(takes: seq<Take>, k: nat, status: Status): seq<Take>
    requires k < |takes|
  {
    takes[k := takes[k].(status := status)]
  }

  /** `fun.Stop()`: an armed timer will not go off any more; one that went off already will still run. */
  function StopTimer(t: Take): Take { if t.status.Armed? then t.(status := Stopped) else t }

  function StopTimers(takes: seq<Take>, queue: seq<nat>): (r: seq<Take>)
    ensures |r| == |takes|
    ensures forall k :: 0 <= k < |takes| ==> r[k] == if k in queue then StopTimer(takes[k]) else takes[k]
  {
    seq(|takes|, k requires 0 <= k < |takes| => if k in queue then StopTimer(takes[k]) else takes[k])
  }

  /** checkTasksCompl */
  function Settle(s: State): State {
    if s.stopped && s.doneTaskCnt == s.taskCnt then s.(takes := StopTimers(s.takes, s.queue), closed := true) else s
  }

  function Move(s: State, c: nat, p: Phase): State { s.(calls := s.calls[c := p]) }

  function Next(s: State, e: Event): State
    requires Enabled(s, e)
  {
    match e
    case Tick(to) => s.(now := to)
    case Enter(c) => if s.stopped then Move(s, c, Rejected) else Move(s.(taskCnt := s.taskCnt + 1), c, Selecting)
    case Grab(c) =>
      Move(s.(tokens := s.tokens - 1, takes := s.takes + [Take(s.now, c, Held)]), c, Holding(|s.takes|))
    case Cancel(c) => Move(s, c, Cancelled)
    case Arm(c) =>
      var k := s.calls[c].k;
      Move(s.(takes := Mark(s.takes, k, Armed(s.now + s.interval)), queue := s.queue + [k]), c, Served)
    case Count(c) => Move(s.(doneTaskCnt := s.doneTaskCnt + 1), c, Counted)
    case BeginStop(c) => Move(s.(stopped := true), c, Stopping)
    case Check(c) => Move(Settle(s), c, if s.calls[c].Counted? then Finished else Blocked)
    case Release(c) => Move(s, c, Released)
    case Expire(k) => s.(takes := Mark(s.takes, k, Running))
    case Fire(k) =>
      s.(takes := Mark(s.takes, k, Returned), tokens := s.tokens + 1,
         queue := if s.queue == [] then [] else s.queue[1..])
  }

  /** A run: the states before, between and after the events. */
  ghost predicate IsRun(states: seq<State>, events: seq<Event>) {
    |states| == |events| + 1 && states[0] == Initial(states[0].maxCount, states[0].interval) &&
    forall i :: 0 <= i < |events| ==> Enabled(states[i], events[i]) && states[i + 1] == Next(states[i], events[i])
  }

  // ---- Counting tokens ----

  /** Tokens not back in the channel. */
  predicate Out(p: Status) { !p.Returned? }

  /** Tokens whose timer has an entry in the queue. */
  predicate Queued(p: Status) { p.Armed? || p.Running? || p.Stopped? }

  function Total(takes: seq<Take>, p: Status -> bool): nat {
    if takes == [] then 0 else Total(takes[..|takes| - 1], p) + if p(takes[|takes| - 1].status) then 1 else 0
  }

  lemma {:induction false} TotalMark(takes: seq<Take>, k: nat, status: Status, p: Status -> bool)
    requires k < |takes|
    ensures Total(Mark(takes, k, status), p) ==
            Total(takes, p) - (if p(takes[k].status) then 1 else 0) + if p(status) then 1 else 0
  {
    var n := |takes| - 1;
    var marked := Mark(takes, k, status);
    if k == n {
      assert marked[..n] == takes[..n];
    } else {
      assert marked[..n] == Mark(takes[..n], k, status);
      TotalMark(takes[..n], k, status, p);
    }
  }

  lemma {:induction false} TotalSame(a: seq<Take>, b: seq<Take>, p: Status -> bool)
    requires |a| == |b| && forall k :: 0 <= k < |a| ==> p(a[k].status) == p(b[k].status)
    ensures Total(a, p) == Total(b, p)
  {
    if a != [] {
      TotalSame(a[..|a| - 1], b[..|b| - 1], p);
    }
  }

  lemma {:induction false} TotalPositive(takes: seq<Take>, k: nat, p: Status -> bool)
    requires k < |takes| && p(takes[k].status)
    ensures Total(takes, p) > 0
  {
    if k < |takes| - 1 {
      TotalPositive(takes[..|takes| - 1], k, p);
    }
  }

  /** If fewer than `n` are `p`, one of the last `n` is not. */
  lemma {:induction false} OneIsNot(takes: seq<Take>, n: nat, p: Status -> bool) returns (k: nat)
    requires Total(takes, p) < n <= |takes|
    ensures |takes| - n <= k < |takes| && !p(takes[k].status)
    decreases n
  {
    var last := |takes| - 1;
    if p(takes[last].status) {
      k := OneIsNot(takes[..last], n - 1, p);
    } else {
      k := last;
    }
  }

  // ---- The invariant ----

  /** Every token is in the channel or out, and the queue has one entry for each armed, running or stopped timer. */
  ghost predicate Ledger(s: State) {
    s.tokens + Total(s.takes, Out) == s.maxCount && Total(s.takes, Queued) == |s.queue|
  }

  ghost predicate TakeInTime(s: State, t: Take) {
    t.at <= s.now && (t.status.Armed? ==> t.at + s.interval <= t.status.deadline) &&
    (t.status.Running? || t.status.Returned? ==> t.at + s.interval <= s.now)
  }

  /** No token comes back before its interval is over. */
  ghost predicate Timely(s: State) {
    (forall k :: 0 <= k < |s.takes| ==> TakeInTime(s, s.takes[k])) &&
    (forall i, j :: 0 <= i < j < |s.takes| ==> s.takes[i].at <= s.takes[j].at)
  }

  /** Between a take and the `maxCount`-th after it there is at least the interval. */
  ghost predicate Spaced(s: State) {
    forall i, j :: 0 <= i && j == i + s.maxCount && j < |s.takes| ==> s.takes[j].at - s.takes[i].at >= s.interval
  }

  /** A token that is out without a timer belongs to exactly one call, which will arm it. */
  ghost predicate Owned(s: State) {
    (forall c :: c in s.calls && s.calls[c].Holding? ==>
      s.calls[c].k < |s.takes| && s.takes[s.calls[c].k].status.Held? && s.takes[s.calls[c].k].call == c) &&
    (forall k :: 0 <= k < |s.takes| && s.takes[k].status.Held? ==> At(s, s.takes[k].call, Holding(k)))
  }

  function Flying(calls: map<nat, Phase>): set<nat> { set c | c in calls && InFlight(calls[c]) }

  ghost predicate Counts(s: State) { s.doneTaskCnt + |Flying(s.calls)| == s.taskCnt }

  ghost predicate SomeoneChecks(s: State) { exists c :: c in s.calls && Checking(s.calls[c]) }

  /** Shutdown happens only when all admitted calls are done, and then it is never forgotten. */
  ghost predicate Shutdown(s: State) {
    (s.closed ==> s.stopped && s.doneTaskCnt == s.taskCnt) &&
    (forall k :: 0 <= k < |s.takes| && s.takes[k].status.Stopped? ==> s.closed) &&
    (forall c :: c in s.calls && (s.calls[c].Stopping? || s.calls[c].Blocked?) ==> s.stopped) &&
    (forall c :: c in s.calls && s.calls[c].Released? ==> s.closed) &&
    (s.stopped && s.doneTaskCnt == s.taskCnt && !s.closed ==> SomeoneChecks(s))
  }

  /** The queue holds timers. */
  ghost predicate Known(s: State) {
    forall k :: k in s.queue ==> k < |s.takes|
  }

  ghost predicate Inv(s: State) {
    Known(s) && Ledger(s) && Timely(s) && Spaced(s) && Owned(s) && Counts(s) && Shutdown(s)
  }

  // ---- Each part is kept by every step ----

  lemma MarkBalance(takes: seq<Take>, k: nat, status: Status)
    requires k < |takes|
    ensures Total(Mark(takes, k, status), Out) ==
            Total(takes, Out) - (if Out(takes[k].status) then 1 else 0) + if Out(status) then 1 else 0
    ensures Total(Mark(takes, k, status), Queued) ==
            Total(takes, Queued) - (if Queued(takes[k].status) then 1 else 0) + if Queued(status) then 1 else 0
  {
    TotalMark(takes, k, status, Out);
    TotalMark(takes, k, status, Queued);
  }

  lemma GrabKeepsLedger(s: State, c: nat)
    requires Ledger(s) && Enabled(s, Grab(c))
    ensures Ledger(Next(s, Grab(c)))
  {
  }

  lemma MarkKeepsLedger(s: State, e: Event)
    requires Ledger(s) && Owned(s) && Enabled(s, e) && (e.Arm? || e.Expire?)
    ensures Ledger(Next(s, e))
  {
    if e.Arm? {
      MarkBalance(s.takes, s.calls[e.c].k, Armed(s.now + s.interval));
    } else {
      MarkBalance(s.takes, e.k, Running);
    }
  }

  /** The callback finds an entry in the queue and room in the channel: it neither panics nor blocks. */
  lemma FireIsSafe(s: State, k: nat)
    requires Ledger(s) && k < |s.takes| && s.takes[k].status.Running?
    ensures s.queue != [] && s.tokens < s.maxCount
  {
    TotalPositive(s.takes, k, Out);
    TotalPositive(s.takes, k, Queued);
  }

  lemma FireKeepsLedger(s: State, k: nat)
    requires Ledger(s) && Enabled(s, Fire(k))
    ensures Ledger(Next(s, Fire(k)))
  {
    FireIsSafe(s, k);
    MarkBalance(s.takes, k, Returned);
  }

  lemma SettleKeepsLedger(s: State)
    requires Ledger(s)
    ensures Ledger(Settle(s))
  {
    TotalSame(s.takes, StopTimers(s.takes, s.queue), Out);
    TotalSame(s.takes, StopTimers(s.takes, s.queue), Queued);
  }

  lemma StepKeepsLedger(s: State, e: Event)
    requires Ledger(s) && Owned(s) && Enabled(s, e)
    ensures Ledger(Next(s, e))
  {
    if e.Grab? {
      GrabKeepsLedger(s, e.c);
    } else if e.Arm? || e.Expire? {
      MarkKeepsLedger(s, e);
    } else if e.Fire? {
      FireKeepsLedger(s, e.k);
    } else if e.Check? {
      SettleKeepsLedger(s);
    }
  }

  lemma StepKeepsKnown(s: State, e: Event)
    requires Known(s) && Enabled(s, e)
    ensures Known(Next(s, e))
  {
    var t := Next(s, e);
    forall k | k in t.queue ensures k < |t.takes| {
      assert k in s.queue || (e.Arm? && k == s.calls[e.c].k);
    }
  }

  lemma StepKeepsTimely(s: State, e: Event)
    requires Timely(s) && Owned(s) && Enabled(s, e)
    ensures Timely(Next(s, e))
  {
    var t := Next(s, e);
    forall k | 0 <= k < |t.takes| ensures TakeInTime(t, t.takes[k]) {
      if k < |s.takes| { assert TakeInTime(s, s.takes[k]); }
    }
  }

  /** A token can only be taken when, of the last `maxCount` taken, one has come back. */
  lemma GrabKeepsSpaced(s: State, c: nat)
    requires Ledger(s) && Timely(s) && Spaced(s) && Enabled(s, Grab(c))
    ensures Spaced(Next(s, Grab(c)))
  {
    var t := Next(s, Grab(c));
    var n := |s.takes|;
    if n >= s.maxCount {
      var k := OneIsNot(s.takes, s.maxCount, Out);
      assert TakeInTime(s, s.takes[k]);
      assert s.takes[n - s.maxCount].at <= s.takes[k].at;
    }
  }

  lemma StepKeepsSpaced(s: State, e: Event)
    requires Ledger(s) && Timely(s) && Spaced(s) && Enabled(s, e)
    ensures Spaced(Next(s, e))
  {
    if e.Grab? {
      GrabKeepsSpaced(s, e.c);
    } else {
      var t := Next(s, e);
      assert |t.takes| == |s.takes| && forall k :: 0 <= k < |s.takes| ==> t.takes[k].at == s.takes[k].at;
    }
  }

  lemma CallKeepsOwned(s: State, e: Event)
    requires Owned(s) && Enabled(s, e) && !e.Check? && !e.Tick? && !e.Expire? && !e.Fire?
    ensures Owned(Next(s, e))
  {
  }

  lemma StepKeepsOwned(s: State, e: Event)
    requires Owned(s) && Enabled(s, e)
    ensures Owned(Next(s, e))
  {
    if !e.Check? && !e.Tick? && !e.Expire? && !e.Fire? {
      CallKeepsOwned(s, e);
    }
  }

  lemma FlyingMove(calls: map<nat, Phase>, c: nat, p: Phase)
    ensures |Flying(calls[c := p])| ==
            |Flying(calls) - {c}| + if InFlight(p) then 1 else 0
    ensures |Flying(calls)| == |Flying(calls) - {c}| + if c in Flying(calls) then 1 else 0
  {
    if InFlight(p) {
      assert Flying(calls[c := p]) == (Flying(calls) - {c}) + {c};
    } else {
      assert Flying(calls[c := p]) == Flying(calls) - {c};
    }
    if c in Flying(calls) {
      assert Flying(calls) == (Flying(calls) - {c}) + {c};
    } else {
      assert Flying(calls) == Flying(calls) - {c};
    }
  }

  lemma StepKeepsCounts(s: State, e: Event)
    requires Counts(s) && Enabled(s, e)
    ensures Counts(Next(s, e))
  {
    var t := Next(s, e);
    if e.Tick? || e.Expire? || e.Fire? {
      assert t.calls == s.calls;
    } else {
      FlyingMove(s.calls, e.c, t.calls[e.c]);
      assert e.c in Flying(s.calls) <==> e.c in s.calls && InFlight(s.calls[e.c]);
    }
  }

  lemma CheckerStays(s: State, e: Event)
    requires Shutdown(s) && Enabled(s, e)
    requires var t := Next(s, e); t.stopped && t.doneTaskCnt == t.taskCnt && !t.closed
    ensures SomeoneChecks(Next(s, e))
  {
    var t := Next(s, e);
    if e.Count? || e.BeginStop? {
      assert Checking(t.calls[e.c]);
    } else {
      var d :| d in s.calls && Checking(s.calls[d]);
      assert Checking(t.calls[d]);
    }
  }

  lemma StepKeepsShutdown(s: State, e: Event)
    requires Shutdown(s) && Counts(s) && Enabled(s, e)
    ensures Shutdown(Next(s, e))
  {
    var t := Next(s, e);
    if t.stopped && t.doneTaskCnt == t.taskCnt && !t.closed {
      CheckerStays(s, e);
    }
    if e.Count? { assert e.c in Flying(s.calls); }
  }

  // ---- What holds in every run ----

  lemma StepKeepsInv(s: State, e: Event)
    requires Inv(s) && Enabled(s, e)
    ensures Inv(Next(s, e))
  {
    StepKeepsKnown(s, e);
    StepKeepsLedger(s, e);
    StepKeepsTimely(s, e);
    StepKeepsSpaced(s, e);
    StepKeepsOwned(s, e);
    StepKeepsCounts(s, e);
    StepKeepsShutdown(s, e);
  }

  lemma {:induction false} RunsKeepInv(states: seq<State>, events: seq<Event>, n: nat)
    requires IsRun(states, events) && n < |states|
    ensures Inv(states[n])
  {
    if n == 0 {
      assert Flying(states[0].calls) == {};
    } else {
      RunsKeepInv(states, events, n - 1);
      StepKeepsInv(states[n - 1], events[n - 1]);
    }
  }

  /** Takes at or after `x` and before `x + interval`. */
  function Window(s: State, x: real): set<nat> {
    set k: nat | k < |s.takes| && x <= s.takes[k].at < x + s.interval
  }

  lemma {:induction false} FewBetween(lo: nat, n: nat, ks: set<nat>)
    requires forall k :: k in ks ==> lo <= k < lo + n
    ensures |ks| <= n
  {
    if n == 0 {
      assert ks == {};
    } else {
      FewBetween(lo, n - 1, ks - {lo + n - 1});
    }
  }

  lemma {:induction false} Least(ks: set<nat>) returns (m: nat)
    requires ks != {}
    ensures m in ks && forall k :: k in ks ==> m <= k
    decreases |ks|
  {
    var k :| k in ks;
    if ks == {k} {
      m := k;
    } else {
      m := Least(ks - {k});
      assert forall j :: j in ks ==> j == k || j in ks - {k};
      if k < m { m := k; }
    }
  }

  lemma FarApart(s: State, m: nat, k: nat)
    requires Timely(s) && Spaced(s) && m + s.maxCount <= k < |s.takes|
    ensures s.takes[k].at - s.takes[m].at >= s.interval
  {
    assert s.takes[m + s.maxCount].at <= s.takes[k].at;
  }

  lemma WindowBound(s: State, x: real)
    requires Timely(s) && Spaced(s)
    ensures |Window(s, x)| <= s.maxCount
  {
    var ks := Window(s, x);
    if ks != {} {
      var m := Least(ks);
      forall k | k in ks ensures m <= k < m + s.maxCount {
        if k >= m + s.maxCount { FarApart(s, m, k); }
      }
      FewBetween(m, s.maxCount, ks);
    }
  }

  /** In no window as long as the interval are more than `maxCount` tokens taken, at any moment of any run. */
  lemma RateIsLimited(states: seq<State>, events: seq<Event>, n: nat, x: real)
    requires IsRun(states, events) && n < |states|
    ensures |Window(states[n], x)| <= states[n].maxCount
  {
    RunsKeepInv(states, events, n);
    WindowBound(states[n], x);
  }

  predicate IsHeld(p: Status) { p.Held? }

  predicate IsArmed(p: Status) { p.Armed? || p.Running? }

  lemma {:induction false} OutIsHeldOrArmed(takes: seq<Take>)
    requires forall k :: 0 <= k < |takes| ==> !takes[k].status.Stopped?
    ensures Total(takes, Out) == Total(takes, IsHeld) + Total(takes, IsArmed)
    ensures Total(takes, Queued) == Total(takes, IsArmed)
  {
    if takes != [] {
      OutIsHeldOrArmed(takes[..|takes| - 1]);
    }
  }

  /**
   * Until shutdown each of the `maxCount` tokens is free, taken and not armed, or armed; the queue holds the
   * armed ones.
   */
  lemma TokensAreConserved(states: seq<State>, events: seq<Event>, n: nat)
    requires IsRun(states, events) && n < |states|
    ensures var s := states[n]; !s.closed ==>
      s.tokens + Total(s.takes, IsHeld) + Total(s.takes, IsArmed) == s.maxCount && |s.queue| == Total(s.takes, IsArmed)
  {
    RunsKeepInv(states, events, n);
    if !states[n].closed {
      OutIsHeldOrArmed(states[n].takes);
    }
  }

  /** The timer callback never blocks on the channel and never indexes an empty queue, before or after shutdown. */
  lemma CallbackIsSafe(states: seq<State>, events: seq<Event>, n: nat)
    requires IsRun(states, events) && n < |events| && events[n].Fire?
    ensures states[n].queue != [] && states[n].tokens < states[n].maxCount
  {
    RunsKeepInv(states, events, n);
    FireIsSafe(states[n], events[n].k);
  }

  /** When Stop has returned, no admitted Acquire is unfinished. */
  lemma StopWaitsForAll(states: seq<State>, events: seq<Event>, n: nat, c: nat, d: nat)
    requires IsRun(states, events) && n < |states| && At(states[n], c, Released)
    ensures d in states[n].calls ==> !InFlight(states[n].calls[d])
  {
    RunsKeepInv(states, events, n);
    assert |Flying(states[n].calls)| == 0;
    assert d !in Flying(states[n].calls);
  }

  /** Stop is not forgotten: with all admitted calls counted and nobody left to check, the waiting Stop can return. */
  lemma StopIsReleased(states: seq<State>, events: seq<Event>, n: nat, c: nat)
    requires IsRun(states, events) && n < |states| && At(states[n], c, Blocked)
    requires forall d :: d in states[n].calls ==> !InFlight(states[n].calls[d]) && !Checking(states[n].calls[d])
    ensures Enabled(states[n], Release(c))
  {
    RunsKeepInv(states, events, n);
    assert Flying(states[n].calls) == {};
  }

  /** Once Stop has set its flag every new Acquire is rejected and leaves no trace in the counters. */
  lemma {:induction false} StaysStopped(states: seq<State>, events: seq<Event>, m: nat, n: nat)
    requires IsRun(states, events) && m <= n < |events| && states[m].stopped && events[n].Enter?
    ensures states[n].stopped && At(states[n + 1], events[n].c, Rejected) && states[n + 1].taskCnt == states[n].taskCnt
  {
    StoppedStays(states, events, m, n);
  }

  lemma {:induction false} StoppedStays(states: seq<State>, events: seq<Event>, m: nat, n: nat)
    requires IsRun(states, events) && m <= n < |states| && states[m].stopped
    ensures states[n].stopped
    decreases n
  {
    if m < n {
      StoppedStays(states, events, m, n - 1);
      assert states[n] == Next(states[n - 1], events[n - 1]);
    }
  }
}
