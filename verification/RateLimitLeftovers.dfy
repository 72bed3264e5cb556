/**
 * ratelimit/ratelimit.go: which timers shutdown leaves running. Each callback removes the front entry of
 * the queue, not its own, so a timer can lose its entry before it goes off.
 */
module RateLimitLeftovers {
  import opened Common
  import opened RateLimitState

  // ---- The queue is in the order of the deadlines ----

  /** Entries of the queue have had their timer armed, each once. */
  ghost predicate EntriesArmed(s: State) {
    Distinct(s.queue) && forall i :: 0 <= i < |s.queue| ==>
      s.queue[i] < |s.takes| && !s.takes[s.queue[i]].status.Held?
  }

  /** No deadline lies further off than one interval. */
  ghost predicate DeadlinesNear(s: State) {
    forall k :: 0 <= k < |s.takes| && s.takes[k].status.Armed? ==> s.takes[k].status.deadline <= s.now + s.interval
  }

  /** A timer still armed is due before those behind it in the queue, and due now if one of them went off. */
  ghost predicate Before(s: State, k: nat, l: nat) {
    k < |s.takes| && l < |s.takes| && s.takes[k].status.Armed? ==>
      s.takes[k].status.deadline <= if s.takes[l].status.Armed? then s.takes[l].status.deadline else s.now
  }

  ghost predicate InOrder(s: State) {
    EntriesArmed(s) && forall i, j :: 0 <= i < j < |s.queue| ==> Before(s, s.queue[i], s.queue[j])
  }

  /** Shutdown has stopped whatever was armed and in the queue. */
  ghost predicate NoneArmedAfterClose(s: State) {
    s.closed ==> forall k :: k in s.queue && k < |s.takes| ==> !s.takes[k].status.Armed?
  }

  /** A timer that lost its entry before going off is due. */
  ghost predicate OnlyDueDropped(s: State) {
    forall k :: 0 <= k < |s.takes| && s.takes[k].status.Armed? && k !in s.queue ==> s.takes[k].status.deadline <= s.now
  }

  ghost predicate QueueInv(s: State) {
    InOrder(s) && DeadlinesNear(s) && NoneArmedAfterClose(s) && OnlyDueDropped(s)
  }

  // ---- Why a dropped entry is due ----

  function Having(takes: seq<Take>, p: Status -> bool): set<nat> {
    set k | 0 <= k < |takes| && p(takes[k].status)
  }

  lemma {:induction false} TotalIsSize(takes: seq<Take>, p: Status -> bool)
    ensures Total(takes, p) == |Having(takes, p)|
  {
    if takes != [] {
      var n := |takes| - 1;
      TotalIsSize(takes[..n], p);
      assert Having(takes, p) == Having(takes[..n], p) + if p(takes[n].status) then {n} else {};
    }
  }

  function Entries(queue: seq<nat>): set<nat> { set k | k in queue }

  lemma {:induction false} EntriesSize(queue: seq<nat>)
    requires Distinct(queue)
    ensures |Entries(queue)| == |queue|
  {
    if queue == [] {
      assert Entries(queue) == {};
    } else {
      EntriesSize(queue[1..]);
      assert Entries(queue) == Entries(queue[1..]) + {queue[0]};
    }
  }

  lemma Pigeonhole(entries: set<nat>, queued: set<nat>, k: nat) returns (q: nat)
    requires |entries| == |queued| && k in queued && k !in entries
    ensures q in entries && q !in queued
  {
    SubsetIsSmall(entries * queued, queued - {k});
    assert entries == entries * queued + (entries - queued);
    q :| q in entries - queued;
  }

  lemma SubsetIsSmall(a: set<nat>, b: set<nat>)
    requires a <= b
    ensures |a| <= |b|
  {
    assert b == a + (b - a);
  }

  /** If a timer went off whose own entry is gone, some entry belongs to a callback that has already run. */
  lemma SpentEntry(s: State, k: nat) returns (j: nat)
    requires Ledger(s) && EntriesArmed(s) && k < |s.takes| && s.takes[k].status.Running? && k !in s.queue
    ensures j < |s.queue| && s.takes[s.queue[j]].status.Returned?
  {
    TotalIsSize(s.takes, Queued);
    EntriesSize(s.queue);
    var q := Pigeonhole(Entries(s.queue), Having(s.takes, Queued), k);
    j :| j < |s.queue| && s.queue[j] == q;
  }

  /** The entry a callback removes is its own, or one whose timer is due or has gone off. */
  lemma FrontIsDue(s: State, k: nat)
    requires Ledger(s) && InOrder(s) && Enabled(s, Fire(k)) && s.queue != []
    requires s.takes[s.queue[0]].status.Armed?
    ensures s.takes[s.queue[0]].status.deadline <= s.now
  {
    if k in s.queue {
      var j :| 0 <= j < |s.queue| && s.queue[j] == k;
      assert Before(s, s.queue[0], s.queue[j]);
    } else {
      var j := SpentEntry(s, k);
      assert Before(s, s.queue[0], s.queue[j]);
    }
  }

  // ---- Every step keeps it ----

  lemma FireKeepsOrder(s: State, k: nat)
    requires InOrder(s) && s.queue != [] && Enabled(s, Fire(k))
    ensures InOrder(Next(s, Fire(k)))
  {
    var t := Next(s, Fire(k));
    forall i, j | 0 <= i < j < |t.queue| ensures Before(t, t.queue[i], t.queue[j]) {
      assert Before(s, s.queue[i + 1], s.queue[j + 1]);
    }
  }

  lemma FireDropsDue(s: State, k: nat)
    requires Ledger(s) && InOrder(s) && OnlyDueDropped(s) && s.queue != [] && Enabled(s, Fire(k))
    ensures OnlyDueDropped(Next(s, Fire(k)))
  {
    var t := Next(s, Fire(k));
    forall l | 0 <= l < |t.takes| && t.takes[l].status.Armed? && l !in t.queue
      ensures t.takes[l].status.deadline <= t.now
    {
      if l == s.queue[0] { FrontIsDue(s, k); } else { assert l !in s.queue; }
    }
  }

  lemma FireKeepsQueue(s: State, k: nat)
    requires Ledger(s) && QueueInv(s) && Enabled(s, Fire(k))
    ensures QueueInv(Next(s, Fire(k)))
  {
    FireIsSafe(s, k);
    FireKeepsOrder(s, k);
    FireDropsDue(s, k);
  }

  lemma ArmKeepsQueue(s: State, c: nat)
    requires Inv(s) && QueueInv(s) && Enabled(s, Arm(c))
    ensures QueueInv(Next(s, Arm(c)))
  {
    var t := Next(s, Arm(c));
    assert c in Flying(s.calls);
    forall i, j | 0 <= i < j < |t.queue| ensures Before(t, t.queue[i], t.queue[j]) {
      if j < |s.queue| { assert Before(s, s.queue[i], s.queue[j]); }
    }
  }

  lemma CheckKeepsQueue(s: State, c: nat)
    requires QueueInv(s) && Enabled(s, Check(c))
    ensures QueueInv(Next(s, Check(c)))
  {
    var t := Next(s, Check(c));
    forall i, j | 0 <= i < j < |t.queue| ensures Before(t, t.queue[i], t.queue[j]) {
      assert Before(s, s.queue[i], s.queue[j]);
    }
  }

  lemma TimeKeepsQueue(s: State, e: Event)
    requires QueueInv(s) && Enabled(s, e) && (e.Tick? || e.Expire? || e.Grab?)
    ensures QueueInv(Next(s, e))
  {
    var t := Next(s, e);
    forall i, j | 0 <= i < j < |t.queue| ensures Before(t, t.queue[i], t.queue[j]) {
      assert Before(s, s.queue[i], s.queue[j]);
    }
  }

  lemma StepKeepsQueue(s: State, e: Event)
    requires Inv(s) && QueueInv(s) && Enabled(s, e)
    ensures QueueInv(Next(s, e))
  {
    if e.Fire? {
      FireKeepsQueue(s, e.k);
    } else if e.Arm? {
      ArmKeepsQueue(s, e.c);
    } else if e.Check? {
      CheckKeepsQueue(s, e.c);
    } else if e.Tick? || e.Expire? || e.Grab? {
      TimeKeepsQueue(s, e);
    }
  }

  lemma {:induction false} RunsKeepQueue(states: seq<State>, events: seq<Event>, n: nat)
    requires IsRun(states, events) && n < |states|
    ensures Inv(states[n]) && QueueInv(states[n])
  {
    RunsKeepInv(states, events, n);
    if n > 0 {
      RunsKeepQueue(states, events, n - 1);
      StepKeepsQueue(states[n - 1], events[n - 1]);
    }
  }

  // ---- What shutdown leaves ----

  ghost predicate IsArmedAt(s: State, k: nat) { k < |s.takes| && s.takes[k].status.Armed? }

  /** The step at which shutdown stops the timers. */
  ghost predicate Closing(states: seq<State>, events: seq<Event>, n: nat)
    requires IsRun(states, events)
  {
    n < |events| && events[n].Check? && !states[n].closed && states[n + 1].closed
  }

  /** At `m` the callback of another timer removes the entry of `k`, whose timer is still armed. */
  ghost predicate DroppedAt(states: seq<State>, events: seq<Event>, m: nat, k: nat)
    requires IsRun(states, events)
  {
    m < |events| && events[m].Fire? && events[m].k != k && IsArmedAt(states[m], k) &&
    states[m].queue != [] && states[m].queue[0] == k
  }

  lemma LosesEntryByFire(s: State, e: Event, k: nat)
    requires Enabled(s, e) && IsArmedAt(Next(s, e), k) && k !in Next(s, e).queue
    requires !IsArmedAt(s, k) || k in s.queue
    ensures e.Fire? && e.k != k && IsArmedAt(s, k) && s.queue != [] && s.queue[0] == k
  {
    if s.queue != [] { assert s.queue == [s.queue[0]] + s.queue[1..]; }
  }

  lemma {:induction false} DroppedByAnother(states: seq<State>, events: seq<Event>, n: nat, k: nat) returns (m: nat)
    requires IsRun(states, events) && n < |states| && IsArmedAt(states[n], k) && k !in states[n].queue
    ensures m < n && DroppedAt(states, events, m, k)
  {
    m := n - 1;
    if IsArmedAt(states[m], k) && k !in states[m].queue {
      m := DroppedByAnother(states, events, m, k);
    } else {
      LosesEntryByFire(states[m], events[m], k);
    }
  }

  ghost predicate HasNoEntry(s: State, k: nat) { k < |s.takes| && !s.takes[k].status.Held? && k !in s.queue }

  lemma NoEntryStays(s: State, e: Event, k: nat)
    requires Owned(s) && Enabled(s, e) && HasNoEntry(s, k)
    ensures HasNoEntry(Next(s, e), k)
  {
  }

  lemma DropLeavesNoEntry(s: State, e: Event, k: nat)
    requires EntriesArmed(s) && Enabled(s, e) && e.Fire? && IsArmedAt(s, k) && s.queue != [] && s.queue[0] == k
    ensures HasNoEntry(Next(s, e), k)
  {
  }

  lemma {:induction false} StaysDropped(states: seq<State>, events: seq<Event>, m: nat, n: nat, k: nat)
    requires IsRun(states, events) && m < n < |states| && DroppedAt(states, events, m, k)
    ensures HasNoEntry(states[n], k)
    decreases n
  {
    RunsKeepQueue(states, events, n - 1);
    if m < n - 1 {
      StaysDropped(states, events, m, n - 1, k);
      NoEntryStays(states[n - 1], events[n - 1], k);
    } else {
      DropLeavesNoEntry(states[m], events[m], k);
    }
  }

  lemma CloseStopsEntries(s: State, e: Event, k: nat)
    requires Known(s) && Enabled(s, e) && e.Check? && !s.closed && Next(s, e).closed
    ensures IsArmedAt(Next(s, e), k) <==> IsArmedAt(s, k) && k !in s.queue
    ensures IsArmedAt(Next(s, e), k) ==> Next(s, e).takes[k] == s.takes[k] && Next(s, e).now == s.now
  {
  }

  /**
   * A timer is still armed after shutdown exactly if it was armed before and the callback of another
   * timer had removed its entry; and then it is due.
   */
  lemma ShutdownLeavesExactly(states: seq<State>, events: seq<Event>, n: nat, k: nat)
    requires IsRun(states, events) && Closing(states, events, n)
    ensures IsArmedAt(states[n + 1], k) <==>
      IsArmedAt(states[n], k) && exists m: nat :: m < n && DroppedAt(states, events, m, k)
    ensures IsArmedAt(states[n + 1], k) ==> states[n + 1].takes[k].status.deadline <= states[n + 1].now
  {
    RunsKeepQueue(states, events, n);
    CloseStopsEntries(states[n], events[n], k);
    if IsArmedAt(states[n + 1], k) {
      var m := DroppedByAnother(states, events, n, k);
    } else if m: nat :| m < n && DroppedAt(states, events, m, k) {
      StaysDropped(states, events, m, n, k);
    }
  }

  /** Nothing is left running if no armed timer is due when shutdown stops them. */
  lemma NothingDueNothingLeft(states: seq<State>, events: seq<Event>, n: nat, k: nat)
    requires IsRun(states, events) && Closing(states, events, n)
    requires forall l: nat :: IsArmedAt(states[n], l) ==> states[n].takes[l].status.deadline > states[n].now
    ensures !IsArmedAt(states[n + 1], k)
  {
    RunsKeepQueue(states, events, n);
    CloseStopsEntries(states[n], events[n], k);
  }

  // ---- A timer that is left ----

  /** `events` lead from `s` to `t`. */
  ghost predicate Leads(s: State, events: seq<Event>, t: State)
    decreases events
  {
    if events == [] then s == t else Enabled(s, events[0]) && Leads(Next(s, events[0]), events[1..], t)
  }

  lemma LeadsFirst(s: State, e: Event, more: seq<Event>, t: State)
    requires Enabled(s, e) && Leads(Next(s, e), more, t)
    ensures Leads(s, [e] + more, t)
  {
    assert ([e] + more)[1..] == more;
  }

  lemma {:induction false} LeadsOn(s: State, a: seq<Event>, t: State, b: seq<Event>, u: State)
    requires Leads(s, a, t) && Leads(t, b, u)
    ensures Leads(s, a + b, u)
    decreases a
  {
    if a == [] {
      assert a + b == b;
    } else {
      assert (a + b)[1..] == a[1..] + b;
      LeadsOn(Next(s, a[0]), a[1..], t, b, u);
    }
  }

  lemma {:induction false} LeadsIsPath(s: State, events: seq<Event>, t: State) returns (states: seq<State>)
    requires Leads(s, events, t)
    ensures |states| == |events| + 1 && states[0] == s && states[|events|] == t
    ensures forall i :: 0 <= i < |events| ==>
      Enabled(states[i], events[i]) && states[i + 1] == Next(states[i], events[i])
    decreases events
  {
    if events == [] {
      states := [s];
    } else {
      var more := LeadsIsPath(Next(s, events[0]), events[1..], t);
      states := [s] + more;
      forall i | 0 <= i < |events|
        ensures Enabled(states[i], events[i]) && states[i + 1] == Next(states[i], events[i])
      {
        if i > 0 { assert events[i] == events[1..][i - 1]; }
      }
    }
  }

  // Two tokens are taken and armed; both timers are due, and the second goes off first.
  const START := Initial(2, 1.0)
  const ADMITTED := START.(taskCnt := 2, calls := map[0 := Selecting, 1 := Selecting])
  const HELD := ADMITTED.(tokens := 0, takes := [Take(0.0, 0, Held), Take(0.0, 1, Held)],
                          calls := map[0 := Holding(0), 1 := Holding(1)])
  const ARMED := HELD.(takes := [Take(0.0, 0, Armed(1.0)), Take(0.0, 1, Armed(1.0))], queue := [0, 1],
                       calls := map[0 := Served, 1 := Served])
  const DONE := ARMED.(doneTaskCnt := 2, calls := map[0 := Counted, 1 := Counted])
  const FIRED := DONE.(
    now := 1.0, takes := [Take(0.0, 0, Armed(1.0)), Take(0.0, 1, Returned)], queue := [1], tokens := 1)
  const CLOSED := FIRED.(stopped := true, closed := true, calls := map[0 := Counted, 1 := Counted, 2 := Blocked])

  lemma LeadsTwo(s: State, e: Event, f: Event, t: State)
    requires Enabled(s, e) && Enabled(Next(s, e), f) && Next(Next(s, e), f) == t
    ensures Leads(s, [e, f], t)
  {
    assert [e, f][1..] == [f] && [f][1..] == [];
    assert Leads(Next(s, e), [f], t);
  }

  lemma BothEnter()
    ensures Leads(START, [Enter(0), Enter(1)], ADMITTED)
  {
    var s := Next(START, Enter(0));
    assert Next(s, Enter(1)).calls == ADMITTED.calls;
    LeadsTwo(START, Enter(0), Enter(1), ADMITTED);
  }

  lemma BothTake()
    ensures Leads(ADMITTED, [Grab(0), Grab(1)], HELD)
  {
    var s := Next(ADMITTED, Grab(0));
    assert Next(s, Grab(1)).calls == HELD.calls && Next(s, Grab(1)).takes == HELD.takes;
    LeadsTwo(ADMITTED, Grab(0), Grab(1), HELD);
  }

  lemma BothArm()
    ensures Leads(HELD, [Arm(0), Arm(1)], ARMED)
  {
    var s := Next(HELD, Arm(0));
    assert Next(s, Arm(1)).calls == ARMED.calls && Next(s, Arm(1)).takes == ARMED.takes;
    LeadsTwo(HELD, Arm(0), Arm(1), ARMED);
  }

  lemma BothCount()
    ensures Leads(ARMED, [Count(0), Count(1)], DONE)
  {
    var s := Next(ARMED, Count(0));
    assert Next(s, Count(1)).calls == DONE.calls;
    LeadsTwo(ARMED, Count(0), Count(1), DONE);
  }

  lemma SecondFires()
    ensures Leads(DONE, [Tick(1.0), Expire(1), Fire(1)], FIRED)
  {
    var s := Next(DONE, Tick(1.0));
    var t := Next(s, Expire(1));
    assert Next(t, Fire(1)).takes == FIRED.takes && Next(t, Fire(1)).queue == FIRED.queue;
    LeadsTwo(s, Expire(1), Fire(1), FIRED);
    LeadsFirst(DONE, Tick(1.0), [Expire(1), Fire(1)], FIRED);
    assert [Tick(1.0)] + [Expire(1), Fire(1)] == [Tick(1.0), Expire(1), Fire(1)];
  }

  lemma StopCloses()
    ensures Leads(FIRED, [BeginStop(2), Check(2)], CLOSED)
  {
    var s := Next(FIRED, BeginStop(2));
    assert Next(s, Check(2)).calls == CLOSED.calls && Next(s, Check(2)).takes == CLOSED.takes;
    LeadsTwo(FIRED, BeginStop(2), Check(2), CLOSED);
  }

  /** Shutdown can leave a timer running: here the first one, which is due, has lost its entry to the second. */
  lemma AnArmedTimerCanBeLeft() returns (states: seq<State>, events: seq<Event>)
    ensures IsRun(states, events) && states[0] == Initial(2, 1.0)
    ensures var s := states[|events|]; s.closed && IsArmedAt(s, 0) && 0 !in s.queue && s.queue == [1]
  {
    BothEnter();
    BothTake();
    BothArm();
    BothCount();
    SecondFires();
    StopCloses();
    var a := [Enter(0), Enter(1)] + [Grab(0), Grab(1)];
    LeadsOn(START, [Enter(0), Enter(1)], ADMITTED, [Grab(0), Grab(1)], HELD);
    LeadsOn(START, a, HELD, [Arm(0), Arm(1)], ARMED);
    var b := a + [Arm(0), Arm(1)];
    LeadsOn(START, b, ARMED, [Count(0), Count(1)], DONE);
    var c := b + [Count(0), Count(1)];
    LeadsOn(START, c, DONE, [Tick(1.0), Expire(1), Fire(1)], FIRED);
    var d := c + [Tick(1.0), Expire(1), Fire(1)];
    LeadsOn(START, d, FIRED, [BeginStop(2), Check(2)], CLOSED);
    events := d + [BeginStop(2), Check(2)];
    states := LeadsIsPath(START, events, CLOSED);
  }
}
