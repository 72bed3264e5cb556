/** The lock manager of keylock/keylock.go seen from outside: who waits and who owns which keys. */
module KeyLockState {
  type Key = string

  /** A request is queued, granted (its wakeup is buffered in the channel but the goroutine has not
      resumed) or holding (the goroutine has its `unlock`). */
  datatype Role = Queued | Granted | Holding
  datatype Request = Request(role: Role, keys: seq<Key>)

  /** Every request in flight. */
  type State<!W> = map<W, Request>

  ghost predicate Owns<W>(s: State<W>, w: W) {
    w in s && !s[w].role.Queued?
  }

  ghost predicate Disjoint(a: seq<Key>, b: seq<Key>) {
    forall k :: k in a ==> k !in b
  }

  /** No owner has any of `keys`. */
  ghost predicate Free<W>(s: State<W>, keys: seq<Key>) {
    forall w :: w in s && Owns(s, w) ==> Disjoint(s[w].keys, keys)
  }

  /** Exclusion: two owners never share a key. */
  ghost predicate Exclusive<W>(s: State<W>) {
    forall v, w :: v in s && w in s && Owns(s, v) && Owns(s, w) && v != w ==> Disjoint(s[v].keys, s[w].keys)
  }

  /** No lost wakeup: every queued request still waits for a key that somebody owns. */
  ghost predicate Settled<W>(s: State<W>) {
    forall w :: w in s && s[w].role.Queued? ==> !Free(s, s[w].keys)
  }

  ghost predicate Inv<W>(s: State<W>) {
    Exclusive(s) && Settled(s)
  }

  /** One hand-off inside `wakeUp`: a queued request all of whose keys are free becomes their owner. */
  ghost predicate CanGrant<W>(s: State<W>, w: W) {
    w in s && s[w].role.Queued? && Free(s, s[w].keys)
  }

  function Grant<W>(s: State<W>, w: W): State<W>
    requires w in s
  {
    s[w := Request(Granted, s[w].keys)]
  }

  /** The hand-offs of one critical section, in order. */
  ghost predicate CanGrantAll<W>(s: State<W>, ws: seq<W>)
    decreases |ws|, 0
  {
    ws == [] || (CanGrantAll(s, ws[..|ws| - 1]) && CanGrant(GrantAll(s, ws[..|ws| - 1]), ws[|ws| - 1]))
  }

  ghost function GrantAll<W>(s: State<W>, ws: seq<W>): (t: State<W>)
    requires CanGrantAll(s, ws)
    ensures t.Keys == s.Keys
    decreases |ws|, 1
  {
    if ws == [] then s else Grant(GrantAll(s, ws[..|ws| - 1]), ws[|ws| - 1])
  }

  /** One critical section of the lock manager, with the choices the scheduler made. */
  datatype Event<W> =
    | LockFast(w: W, keys: seq<Key>)
    | Enqueue(w: W, keys: seq<Key>)
    | Resume(w: W)
    | CancelQueued(w: W)
    | CancelGranted(w: W, woken: seq<W>)
    | Unlock(w: W, woken: seq<W>)

  /** No grantable request wants `key`. */
  ghost predicate NobodyReady<W>(s: State<W>, key: Key) {
    forall w :: w in s && CanGrant(s, w) ==> key !in s[w].keys
  }

  /** The loop of `wakeUp` over `keys`: for each key one grantable request that wants it takes over, if there is one. */
  ghost predicate HandOffs<W>(s: State<W>, keys: seq<Key>, woken: seq<W>)
    decreases |keys|
  {
    CanGrantAll(s, woken) &&
    if keys == [] then woken == []
    else
      var before, key := keys[..|keys| - 1], keys[|keys| - 1];
      || (HandOffs(s, before, woken) && NobodyReady(GrantAll(s, woken), key))
      || (woken != [] && HandOffs(s, before, woken[..|woken| - 1]) && key in s[woken[|woken| - 1]].keys)
  }

  /** The owner `w` gives its keys back and `woken` take over. */
  ghost predicate Release<W>(s: State<W>, w: W, woken: seq<W>, t: State<W>) {
    w in s && HandOffs(s - {w}, s[w].keys, woken) && t == GrantAll(s - {w}, woken)
  }

  ghost predicate Step<W>(s: State<W>, e: Event<W>, t: State<W>) {
    match e
    case LockFast(w, keys) => w !in s && Free(s, keys) && t == s[w := Request(Holding, keys)]
    case Enqueue(w, keys) => w !in s && !Free(s, keys) && t == s[w := Request(Queued, keys)]
    case Resume(w) => w in s && s[w].role.Granted? && t == s[w := Request(Holding, s[w].keys)]
    case CancelQueued(w) => w in s && s[w].role.Queued? && t == s - {w}
    case CancelGranted(w, woken) => w in s && s[w].role.Granted? && Release(s, w, woken, t)
    case Unlock(w, woken) => w in s && s[w].role.Holding? && Release(s, w, woken, t)
  }

  /** `states` is a run from the empty lock manager, one critical section of `events` at a time. */
  ghost predicate IsRun<W>(states: seq<State<W>>, events: seq<Event<W>>) {
    |states| == |events| + 1 && states[0] == map[] &&
    forall i :: 0 <= i < |events| ==> Step(states[i], events[i], states[i + 1])
  }

  /** Handing keys over one request at a time never gives a key to two owners. */
  lemma {:induction false} GrantAllKeepsExclusion<W>(s: State<W>, ws: seq<W>)
    requires Exclusive(s) && CanGrantAll(s, ws)
    ensures Exclusive(GrantAll(s, ws))
    decreases |ws|
  {
    if ws != [] {
      GrantAllKeepsExclusion(s, ws[..|ws| - 1]);
    }
  }

  /** Hand-offs change nothing but the role of queued requests, and those become granted. */
  lemma {:induction false} GrantAllFrame<W>(s: State<W>, ws: seq<W>, w: W)
    requires CanGrantAll(s, ws) && w in s
    ensures GrantAll(s, ws)[w].keys == s[w].keys
    ensures w in ws ==> s[w].role.Queued? && GrantAll(s, ws)[w].role.Granted?
    ensures w !in ws ==> GrantAll(s, ws)[w] == s[w]
    decreases |ws|
  {
    if ws != [] {
      var init, last := ws[..|ws| - 1], ws[|ws| - 1];
      assert ws == init + [last];
      GrantAllFrame(s, init, w);
    }
  }

  /** A hand-off makes no request grantable. */
  lemma GrantOnlyBlocks<W>(s: State<W>, w: W, v: W)
    requires CanGrant(s, w) && CanGrant(Grant(s, w), v)
    ensures CanGrant(s, v) && Disjoint(s[w].keys, s[v].keys)
  {
    var t := Grant(s, w);
    assert Owns(t, w) && t[w].keys == s[w].keys && v != w;
    forall u | u in s && Owns(s, u) ensures Disjoint(s[u].keys, s[v].keys) {
      assert Owns(t, u) && t[u] == s[u];
    }
  }

  lemma {:induction false} GrantAllOnlyBlocks<W>(s: State<W>, ws: seq<W>, v: W)
    requires CanGrantAll(s, ws) && CanGrant(GrantAll(s, ws), v)
    ensures CanGrant(s, v)
    decreases |ws|
  {
    if ws != [] {
      GrantOnlyBlocks(GrantAll(s, ws[..|ws| - 1]), ws[|ws| - 1], v);
      GrantAllOnlyBlocks(s, ws[..|ws| - 1], v);
    }
  }

  /** One waiter per key is enough: after the loop no grantable request wants any of the keys. */
  lemma {:induction false} HandOffsExhaust<W>(s: State<W>, keys: seq<Key>, woken: seq<W>, v: W)
    requires HandOffs(s, keys, woken) && CanGrant(GrantAll(s, woken), v)
    ensures v in s && Disjoint(keys, s[v].keys)
    decreases |keys|
  {
    GrantAllFrame(s, woken, v);
    if keys != [] {
      var before, key := keys[..|keys| - 1], keys[|keys| - 1];
      assert keys == before + [key];
      if HandOffs(s, before, woken) && NobodyReady(GrantAll(s, woken), key) {
        HandOffsExhaust(s, before, woken, v);
      } else {
        var init, last := woken[..|woken| - 1], woken[|woken| - 1];
        GrantOnlyBlocks(GrantAll(s, init), last, v);
        GrantAllFrame(s, init, last);
        GrantAllFrame(s, init, v);
        HandOffsExhaust(s, before, init, v);
      }
    }
  }

  /** Whoever becomes grantable because `w` gives its keys back wants one of them. */
  lemma FreedByDropping<W>(s: State<W>, w: W, q: W)
    requires w in s && Settled(s) && CanGrant(s - {w}, q)
    ensures !Disjoint(s[w].keys, s[q].keys)
  {
    assert !Free(s, s[q].keys);
    var v :| v in s && Owns(s, v) && !Disjoint(s[v].keys, s[q].keys);
    if v != w {
      assert v in s - {w} && Owns(s - {w}, v);
    }
  }

  /** The hand-offs of a release leave nobody queued whose keys are free. */
  lemma ReleaseSettles<W>(s: State<W>, w: W, woken: seq<W>, t: State<W>)
    requires Settled(s) && Release(s, w, woken, t)
    ensures Settled(t)
  {
    forall q | q in t && t[q].role.Queued? ensures !Free(t, t[q].keys) {
      if Free(t, t[q].keys) {
        HandOffsExhaust(s - {w}, s[w].keys, woken, q);
        GrantAllOnlyBlocks(s - {w}, woken, q);
        FreedByDropping(s, w, q);
      }
    }
  }

  /** Every critical section keeps exclusion and leaves nobody queued without reason. */
  lemma StepKeepsInv<W>(s: State<W>, e: Event<W>, t: State<W>)
    requires Inv(s) && Step(s, e, t)
    ensures Inv(t)
  {
    if e.CancelGranted? || e.Unlock? {
      GrantAllKeepsExclusion(s - {e.w}, e.woken);
      ReleaseSettles(s, e.w, e.woken, t);
    } else {
      forall q | q in t && t[q].role.Queued? ensures !Free(t, t[q].keys) {
        assert !Free(s, t[q].keys);
        var v :| v in s && Owns(s, v) && !Disjoint(s[v].keys, t[q].keys);
        assert v in t && Owns(t, v);
      }
    }
  }

  /** Exclusion and no lost wakeup in every state of every run, whatever the scheduler and cancellations do. */
  lemma {:induction false} RunsAreSafe<W>(states: seq<State<W>>, events: seq<Event<W>>, i: nat)
    requires IsRun(states, events) && i < |states|
    ensures Inv(states[i])
    decreases i
  {
    if i > 0 {
      RunsAreSafe(states, events, i - 1);
      StepKeepsInv(states[i - 1], events[i - 1], states[i]);
    }
  }

  /** In every run: while somebody is queued, some owner has a key, so a release step is enabled.
      In particular when no key is owned nobody is queued. */
  lemma NoDeadlock<W>(states: seq<State<W>>, events: seq<Event<W>>, i: nat, q: W)
    requires IsRun(states, events) && i < |states|
    requires q in states[i] && states[i][q].role.Queued?
    ensures exists w :: Owns(states[i], w) && !Disjoint(states[i][w].keys, states[i][q].keys)
  {
    RunsAreSafe(states, events, i);
    assert !Free(states[i], states[i][q].keys);
  }

  predicate Finishes<W>(e: Event<W>) { e.CancelGranted? || e.CancelQueued? || e.Unlock? }

  /** Ending a request ends exactly that one, however many waiters it wakes; resuming ends none. */
  lemma StepFinishesOne<W>(s: State<W>, e: Event<W>, t: State<W>)
    requires Step(s, e, t) && !Arrival(e)
    ensures t.Keys == if Finishes(e) then s.Keys - {e.w} else s.Keys
    ensures |t| + (if Finishes(e) then 1 else 0) == |s|
  {
  }

  ghost predicate Arrival<W>(e: Event<W>) { e.LockFast? || e.Enqueue? }

  /** How many of `events` end a request. */
  function Finished<W>(events: seq<Event<W>>): nat {
    if events == [] then 0
    else Finished(events[..|events| - 1]) +
         if Finishes(events[|events| - 1]) then 1 else 0
  }

  /** While no new request arrives, every run drains: each cancel and unlock takes exactly one request away,
      so |states[i]| of them leave nobody queued and nobody holding. */
  lemma {:induction false} QuietRunsDrain<W>(states: seq<State<W>>, events: seq<Event<W>>, i: nat, j: nat)
    requires IsRun(states, events) && i <= j < |states|
    requires forall n :: i <= n < j ==> !Arrival(events[n])
    ensures |states[j]| + Finished(events[i..j]) == |states[i]|
    decreases j
  {
    if i < j {
      QuietRunsDrain(states, events, i, j - 1);
      assert events[i..j][..|events[i..j]| - 1] == events[i..j - 1];
      StepFinishesOne(states[j - 1], events[j - 1], states[j]);
    }
  }

  function Rank(r: Role): nat {
    match r case Queued => 1 case Granted => 2 case Holding => 3
  }

  /** How far the request of `w` has come. */
  function Progress<W>(s: State<W>, w: W): nat {
    if w in s then Rank(s[w].role) else 0
  }

  ghost predicate Arrives<W>(e: Event<W>, w: W) {
    (e.LockFast? || e.Enqueue?) && e.w == w
  }

  /** The role of a request only moves forward until the request is gone. */
  lemma ProgressIsMonotone<W>(s: State<W>, e: Event<W>, t: State<W>, w: W)
    requires Step(s, e, t) && !Arrives(e, w)
    ensures Progress(t, w) == 0 || Progress(t, w) >= Progress(s, w) > 0
  {
    if w in s && (e.CancelGranted? || e.Unlock?) && w != e.w {
      GrantAllFrame(s - {e.w}, e.woken, w);
    }
  }

  /** The step cancels or unlocks the request of `w`. */
  ghost predicate Ends<W>(e: Event<W>, w: W) { Finishes(e) && e.w == w }

  lemma RequestGoesOn<W>(s: State<W>, e: Event<W>, t: State<W>, w: W)
    requires Step(s, e, t) && w in s && !Ends(e, w)
    ensures w in t && t[w].keys == s[w].keys && (s[w].role.Holding? ==> t[w].role.Holding?)
  {
    if e.CancelGranted? || e.Unlock? { GrantAllFrame(s - {e.w}, e.woken, w); }
  }

  /** A request is kept, with its keys, until it is cancelled or unlocked; whoever found its keys free holds them. */
  lemma {:induction false} RequestStays<W>(states: seq<State<W>>, events: seq<Event<W>>, m: nat, n: nat, w: W)
    requires IsRun(states, events) && m < n < |states| && Arrives(events[m], w)
    requires forall j :: m < j < n ==> !Ends(events[j], w)
    ensures w in states[n] && states[n][w].keys == events[m].keys
    ensures events[m].LockFast? <==> Free(states[m], events[m].keys)
    ensures events[m].LockFast? ==> states[n][w].role.Holding?
    decreases n
  {
    assert Step(states[m], events[m], states[m + 1]);
    if m + 1 < n {
      RequestStays(states, events, m, n - 1, w);
      RequestGoesOn(states[n - 1], events[n - 1], states[n], w);
    }
  }

  /** A hand-off to `w` happens in the step from `s` to `t`. */
  ghost predicate GrantedBy<W>(s: State<W>, t: State<W>, w: W) {
    Progress(s, w) == 1 && Progress(t, w) == 2
  }

  /** Once granted, never queued again. */
  lemma {:induction false} StaysGranted<W>(states: seq<State<W>>, events: seq<Event<W>>, w: W, i: nat, j: nat)
    requires IsRun(states, events) && i <= j < |states|
    requires Progress(states[i], w) != 1
    requires forall n :: i <= n < j ==> !Arrives(events[n], w)
    ensures Progress(states[j], w) != 1
    decreases j
  {
    if i < j {
      StaysGranted(states, events, w, i, j - 1);
      ProgressIsMonotone(states[j - 1], events[j - 1], states[j], w);
    }
  }

  /** Each request is granted at most once, so the single slot of its channel is never filled twice. */
  lemma GrantedAtMostOnce<W>(states: seq<State<W>>, events: seq<Event<W>>, w: W, i: nat, j: nat)
    requires IsRun(states, events) && i < j < |events|
    requires GrantedBy(states[i], states[i + 1], w) && GrantedBy(states[j], states[j + 1], w)
    ensures exists n :: i < n < j && Arrives(events[n], w)
  {
    if forall n :: i < n < j ==> !Arrives(events[n], w) {
      StaysGranted(states, events, w, i + 1, j);
    }
  }
}
