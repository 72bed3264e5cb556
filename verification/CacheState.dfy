/**
 * distbuild/pkg/artifact/cache.go as a state machine. Mutex sections and file system calls are separate
 * steps of any interleaving; os.Stat inside writeLock is a step of its own, made while the mutex is held.
 */
module CacheState {
  import opened Common

  type ID = nat

  /** What a directory holds. */
  type Content = nat

  datatype StatResult = Found | Missing | Broken

  datatype Phase =
    | Statted(id: ID, remove: bool, stat: StatResult) // writeLock: holds the mutex, has called os.Stat
    | Preparing(id: ID)                // Create: write-locked, before MkdirAll
    | Writing(id: ID)                  // Create has returned: the caller fills the directory
    | Aborting(id: ID)
    | Removing(id: ID)
    | Unlocking(id: ID)                // before writeUnlock
    | Looking(id: ID)                  // Get: read-locked, before os.Stat
    | Using(id: ID, content: Content)  // Get has returned, and `content` is what the path held
    | Dropping(id: ID)                 // Get: found nothing, before readUnlock
    | Done

  datatype State = State(
    mu: Option<nat>, writeLocked: set<ID>, readLocked: map<ID, int>,
    store: map<ID, Content>, tmp: map<ID, Content>, calls: map<nat, Phase>)

  datatype Event =
    | ReadLock(c: nat, id: ID) | StatRead(c: nat, stat: StatResult) | ReadUnlock(c: nat)
    | StatWrite(c: nat, id: ID, remove: bool, stat: StatResult) | WriteLock(c: nat) | WriteUnlock(c: nat)
    | Mkdir(c: nat, ok: bool) | Fill(c: nat, content: Content)
    | Rename(c: nat, ok: bool) | BeginAbort(c: nat) | Erase(c: nat, left: Option<Content>) | EndErase(c: nat)

  function Initial(store: map<ID, Content>): State { State(None, {}, map[], store, map[], map[]) }

  predicate Reads(p: Phase) { p.Looking? || p.Using? || p.Dropping? }

  /** Create's directory is not yet in the cache. */
  predicate Creates(p: Phase) { p.Preparing? || p.Writing? || p.Aborting? }

  predicate Writes(p: Phase) { Creates(p) || p.Removing? || p.Unlocking? }

  function Get(m: map<ID, int>, id: ID): int { if id in m then m[id] else 0 }

  predicate Agrees(stat: StatResult, m: map<ID, Content>, id: ID) {
    (stat.Found? ==> id in m) && (stat.Missing? ==> id !in m)
  }

  predicate Enabled(s: State, e: Event) {
    match e
    case ReadLock(c, id) => c !in s.calls && s.mu == None
    case StatRead(c, stat) => c in s.calls && s.calls[c].Looking? && Agrees(stat, s.store, s.calls[c].id)
    case ReadUnlock(c) => c in s.calls && (s.calls[c].Using? || s.calls[c].Dropping?) && s.mu == None
    case StatWrite(c, id, remove, stat) => c !in s.calls && s.mu == None && Agrees(stat, s.store, id)
    case WriteLock(c) => s.mu == Some(c) && c in s.calls && s.calls[c].Statted?
    case WriteUnlock(c) => c in s.calls && s.calls[c].Unlocking? && s.mu == None
    case Mkdir(c, ok) => c in s.calls && s.calls[c].Preparing?
    case Fill(c, content) => c in s.calls && s.calls[c].Writing?
    case Rename(c, ok) => c in s.calls && s.calls[c].Writing? && (ok ==> s.calls[c].id in s.tmp)
    case BeginAbort(c) => c in s.calls && s.calls[c].Writing?
    case Erase(c, left) => c in s.calls && (s.calls[c].Removing? || s.calls[c].Aborting?)
    case EndErase(c) => c in s.calls && (s.calls[c].Removing? || s.calls[c].Aborting?)
  }

  function Move(s: State, c: nat, p: Phase): State { s.(calls := s.calls[c := p]) }

  /** readUnlock's decrement, which drops the entry at zero. */
  function Release(m: map<ID, int>, id: ID): map<ID, int> {
    if Get(m, id) - 1 == 0 then m - {id} else m[id := Get(m, id) - 1]
  }

  /** Some of a directory is gone; with None, all of it. */
  function Eroded(m: map<ID, Content>, id: ID, left: Option<Content>): map<ID, Content> {
    if left.None? then m - {id} else if id in m then m[id := left.value] else m
  }

  function Next(s: State, e: Event): State
    requires Enabled(s, e)
  {
    match e
    case ReadLock(c, id) =>
      if id in s.writeLocked then Move(s, c, Done)
      else Move(s.(readLocked := s.readLocked[id := Get(s.readLocked, id) + 1]), c, Looking(id))
    case StatRead(c, stat) =>
      var id := s.calls[c].id;
      Move(s, c, if stat.Found? then Using(id, s.store[id]) else Dropping(id))
    case ReadUnlock(c) => Move(s.(readLocked := Release(s.readLocked, s.calls[c].id)), c, Done)
    case StatWrite(c, id, remove, stat) => Move(s.(mu := Some(c)), c, Statted(id, remove, stat))
    case WriteLock(c) =>
      var p := s.calls[c];
      if p.stat.Broken? || (p.stat.Found? && !p.remove) || p.id in s.writeLocked || Get(s.readLocked, p.id) > 0
      then Move(s.(mu := None), c, Done)
      else Move(s.(mu := None, writeLocked := s.writeLocked + {p.id}), c,
                if p.remove then Removing(p.id) else Preparing(p.id))
    case WriteUnlock(c) => Move(s.(writeLocked := s.writeLocked - {s.calls[c].id}), c, Done)
    case Mkdir(c, ok) =>
      var id := s.calls[c].id;
      if ok then Move(s.(tmp := s.tmp[id := if id in s.tmp then s.tmp[id] else 0]), c, Writing(id))
      else Move(s, c, Unlocking(id))
    case Fill(c, content) => s.(tmp := s.tmp[s.calls[c].id := content])
    case Rename(c, ok) =>
      var id := s.calls[c].id;
      Move(if ok then s.(store := s.store[id := s.tmp[id]], tmp := s.tmp - {id}) else s, c, Unlocking(id))
    case BeginAbort(c) => Move(s, c, Aborting(s.calls[c].id))
    case Erase(c, left) =>
      var id := s.calls[c].id;
      if s.calls[c].Removing? then s.(store := Eroded(s.store, id, left)) else s.(tmp := Eroded(s.tmp, id, left))
    case EndErase(c) => Move(s, c, Unlocking(s.calls[c].id))
  }

  ghost predicate IsRun(states: seq<State>, events: seq<Event>) {
    |states| == |events| + 1 && states[0] == Initial(states[0].store) &&
    forall i :: 0 <= i < |events| ==> Enabled(states[i], events[i]) && states[i + 1] == Next(states[i], events[i])
  }

  // ---- The invariant ----

  function Readers(calls: map<nat, Phase>, id: ID): set<nat> {
    set c | c in calls && Reads(calls[c]) && calls[c].id == id
  }

  /** readLocked counts the readers of each id exactly, and has no entry for an id without any. */
  ghost predicate ReadersCounted(s: State) {
    forall id: ID :: Get(s.readLocked, id) == |Readers(s.calls, id)| && (id in s.readLocked ==> s.readLocked[id] > 0)
  }

  /** writeLocked holds the ids being written, each by one call. */
  ghost predicate OneWriter(s: State) { WritersLocked(s) && WritersDiffer(s) }

  ghost predicate WritersLocked(s: State) {
    forall c :: c in s.calls && Writes(s.calls[c]) ==> s.calls[c].id in s.writeLocked
  }

  ghost predicate WritersDiffer(s: State) {
    (forall c, d | c in s.calls && d in s.calls && Writes(s.calls[c]) && Writes(s.calls[d]) ::
      s.calls[c].id == s.calls[d].id ==> c == d)
  }

  ghost predicate NoStrayLock(s: State) {
    forall id :: id in s.writeLocked ==> exists c :: c in s.calls && Writes(s.calls[c]) && s.calls[c].id == id
  }

  ghost predicate Exclusive(s: State) {
    forall id :: id in s.writeLocked ==> id !in s.readLocked
  }

  /** What a call knows about the cache: nothing is there to rename over, and what it reads stays. */
  ghost predicate Knows(s: State) {
    (forall c :: c in s.calls && Creates(s.calls[c]) ==> s.calls[c].id !in s.store) &&
    (forall c :: c in s.calls && s.calls[c].Statted? && s.calls[c].stat.Missing? ==>
      s.calls[c].id in s.writeLocked || s.calls[c].id !in s.store) &&
    (forall c :: c in s.calls && s.calls[c].Using? ==>
      s.calls[c].id in s.store && s.store[s.calls[c].id] == s.calls[c].content)
  }

  ghost predicate MutexHeld(s: State) {
    forall c :: c in s.calls && s.calls[c].Statted? ==> s.mu == Some(c)
  }

  ghost predicate Inv(s: State) {
    ReadersCounted(s) && OneWriter(s) && NoStrayLock(s) && Exclusive(s) && Knows(s) && MutexHeld(s)
  }

  // ---- Steps ----

  lemma ReadersMove(calls: map<nat, Phase>, c: nat, p: Phase, id: ID)
    ensures |Readers(calls[c := p], id)| == |Readers(calls, id)|
            - (if c in calls && Reads(calls[c]) && calls[c].id == id then 1 else 0)
            + (if Reads(p) && p.id == id then 1 else 0)
  {
    var rest := Readers(calls, id) - {c};
    var before := c in calls && Reads(calls[c]) && calls[c].id == id;
    assert Readers(calls, id) == if before then rest + {c} else rest;
    assert Readers(calls[c := p], id) == if Reads(p) && p.id == id then rest + {c} else rest;
  }

  lemma StepKeepsReadersCounted(s: State, e: Event)
    requires ReadersCounted(s) && Enabled(s, e)
    ensures ReadersCounted(Next(s, e))
  {
    var t := Next(s, e);
    forall id: ID
      ensures Get(t.readLocked, id) == |Readers(t.calls, id)| && (id in t.readLocked ==> t.readLocked[id] > 0)
    {
      assert Get(s.readLocked, id) == |Readers(s.calls, id)|;
      if !e.Fill? && !e.Erase? {
        ReadersMove(s.calls, e.c, t.calls[e.c], id);
      }
    }
  }

  lemma StepKeepsLocked(s: State, e: Event)
    requires OneWriter(s) && Enabled(s, e)
    ensures WritersLocked(Next(s, e))
  {
  }

  lemma StepKeepsOneWriter(s: State, e: Event)
    requires OneWriter(s) && Enabled(s, e)
    ensures OneWriter(Next(s, e))
  {
    StepKeepsLocked(s, e);
  }

  lemma StepKeepsNoStrayLock(s: State, e: Event)
    requires NoStrayLock(s) && Enabled(s, e)
    ensures NoStrayLock(Next(s, e))
  {
    var t := Next(s, e);
    forall id | id in t.writeLocked ensures exists c :: c in t.calls && Writes(t.calls[c]) && t.calls[c].id == id {
      if id in s.writeLocked {
        var c :| c in s.calls && Writes(s.calls[c]) && s.calls[c].id == id;
        assert c in t.calls && Writes(t.calls[c]) && t.calls[c].id == id;
      } else {
        assert Writes(t.calls[e.c]) && t.calls[e.c].id == id;
      }
    }
  }

  lemma StepKeepsExclusive(s: State, e: Event)
    requires Exclusive(s) && ReadersCounted(s) && Enabled(s, e)
    ensures Exclusive(Next(s, e))
  {
    var t := Next(s, e);
    if e.ReadUnlock? {
      assert e.c in Readers(s.calls, s.calls[e.c].id);
      assert Get(s.readLocked, s.calls[e.c].id) == |Readers(s.calls, s.calls[e.c].id)|;
    }
    forall id | id in t.writeLocked ensures id !in t.readLocked {
      assert Get(s.readLocked, id) == |Readers(s.calls, id)|;
    }
  }

  lemma StepKeepsMutexHeld(s: State, e: Event)
    requires MutexHeld(s) && Enabled(s, e)
    ensures MutexHeld(Next(s, e))
  {
  }

  /** Nobody writes what somebody reads. */
  lemma ReadersExclude(s: State, c: nat, d: nat)
    requires ReadersCounted(s) && Exclusive(s) && OneWriter(s)
    requires c in s.calls && d in s.calls && Reads(s.calls[c]) && Writes(s.calls[d])
    ensures s.calls[c].id != s.calls[d].id
  {
    var id := s.calls[c].id;
    assert c in Readers(s.calls, id);
    assert Get(s.readLocked, id) == |Readers(s.calls, id)|;
    assert id in s.readLocked;
  }

  /** The two steps that change the cache directory touch only what their call has write-locked. */
  lemma StoreKeepsKnows(s: State, e: Event)
    requires Inv(s) && Enabled(s, e) && (e.Rename? || e.Erase?)
    ensures Knows(Next(s, e))
  {
    var t := Next(s, e);
    forall c | c in t.calls && t.calls[c].Using?
      ensures t.calls[c].id in t.store && t.store[t.calls[c].id] == t.calls[c].content
    {
      ReadersExclude(s, c, e.c);
    }
    forall c | c in t.calls && Creates(t.calls[c]) ensures t.calls[c].id !in t.store {
      assert Creates(s.calls[c]);
    }
  }

  lemma StepKeepsKnows(s: State, e: Event)
    requires Inv(s) && Enabled(s, e)
    ensures Knows(Next(s, e))
  {
    if e.Rename? || e.Erase? {
      StoreKeepsKnows(s, e);
    } else if e.WriteUnlock? {
      UnlockKeepsKnows(s, e);
    } else if e.WriteLock? {
      LockKeepsKnows(s, e);
    } else if e.StatWrite? {
      StatKeepsKnows(s, e);
    } else {
      CallKeepsKnows(s, e);
    }
  }

  /** What os.Stat said under the mutex still holds when the lock is granted. */
  lemma LockKeepsKnows(s: State, e: Event)
    requires Inv(s) && Enabled(s, e) && e.WriteLock?
    ensures Knows(Next(s, e))
  {
  }

  lemma StatKeepsKnows(s: State, e: Event)
    requires Inv(s) && Enabled(s, e) && e.StatWrite?
    ensures Knows(Next(s, e))
  {
  }

  /** Steps that leave the store alone and begin no write. */
  lemma CallKeepsKnows(s: State, e: Event)
    requires Inv(s) && Enabled(s, e)
    requires !(e.Rename? || e.Erase? || e.WriteUnlock? || e.WriteLock? || e.StatWrite?)
    ensures Knows(Next(s, e))
  {
  }

  lemma UnlockKeepsKnows(s: State, e: Event)
    requires Inv(s) && Enabled(s, e) && e.WriteUnlock?
    ensures Knows(Next(s, e))
  {
  }

  // ---- What holds in every run ----

  lemma StepKeepsInv(s: State, e: Event)
    requires Inv(s) && Enabled(s, e)
    ensures Inv(Next(s, e))
  {
    StepKeepsReadersCounted(s, e);
    StepKeepsOneWriter(s, e);
    StepKeepsNoStrayLock(s, e);
    StepKeepsExclusive(s, e);
    StepKeepsKnows(s, e);
    StepKeepsMutexHeld(s, e);
  }

  lemma {:induction false} RunsKeepInv(states: seq<State>, events: seq<Event>, n: nat)
    requires IsRun(states, events) && n < |states|
    ensures Inv(states[n])
  {
    if n == 0 {
      forall id: ID ensures Readers(states[0].calls, id) == {} {}
    } else {
      RunsKeepInv(states, events, n - 1);
      StepKeepsInv(states[n - 1], events[n - 1]);
    }
  }

  /** No id is locked both ways, the readers are counted exactly, and only the locked ids have a writer, just one. */
  lemma LocksAreExact(states: seq<State>, events: seq<Event>, n: nat, id: ID)
    requires IsRun(states, events) && n < |states|
    ensures var s := states[n];
      !(id in s.writeLocked && id in s.readLocked) &&
      (id in s.readLocked <==> Readers(s.calls, id) != {}) &&
      (id in s.readLocked ==> s.readLocked[id] == |Readers(s.calls, id)|)
    ensures var s := states[n];
      id in s.writeLocked <==> exists c :: c in s.calls && Writes(s.calls[c]) && s.calls[c].id == id
  {
    RunsKeepInv(states, events, n);
    assert Get(states[n].readLocked, id) == |Readers(states[n].calls, id)|;
  }

  /** Commit never renames over an artifact: what it moves into the cache was not there. */
  lemma CommitNeverOverwrites(states: seq<State>, events: seq<Event>, n: nat)
    requires IsRun(states, events) && n < |events| && events[n].Rename? && events[n].ok
    ensures var id := states[n].calls[events[n].c].id;
      id !in states[n].store && id in states[n + 1].store && states[n + 1].store[id] == states[n].tmp[id]
  {
    RunsKeepInv(states, events, n);
    assert Creates(states[n].calls[events[n].c]);
  }

  /** An artifact already there is never changed by creating: only Remove takes it away. */
  lemma OnlyRemoveChanges(states: seq<State>, events: seq<Event>, n: nat, id: ID)
    requires IsRun(states, events) && n < |events| && id in states[n].store
    ensures (id in states[n + 1].store && states[n + 1].store[id] == states[n].store[id]) ||
      (events[n].Erase? && states[n].calls[events[n].c] == Removing(id))
  {
    RunsKeepInv(states, events, n);
    assert states[n + 1] == Next(states[n], events[n]);
    if events[n].Rename? { assert Creates(states[n].calls[events[n].c]); }
  }

  lemma UsingStays(s: State, e: Event, c: nat)
    requires Enabled(s, e) && c in s.calls && s.calls[c].Using? && e != ReadUnlock(c)
    ensures c in Next(s, e).calls && Next(s, e).calls[c] == s.calls[c]
  {
  }

  /**
   * Get's os.Stat decides: what it finds is handed out, with the content the cache holds, and else the lock
   * goes back.
   */
  lemma GetAnswers(states: seq<State>, events: seq<Event>, n: nat)
    requires IsRun(states, events) && n < |events| && events[n].StatRead?
    ensures var c, id := events[n].c, states[n].calls[events[n].c].id;
      c in states[n + 1].calls && states[n + 1].store == states[n].store &&
      (events[n].stat.Found? ==> id in states[n].store && states[n + 1].calls[c] == Using(id, states[n].store[id])) &&
      (!events[n].stat.Found? ==> states[n + 1].calls[c] == Dropping(id))
  {
    assert states[n + 1] == Next(states[n], events[n]);
  }

  /** Some call other than `c` holds `id` for writing, or, unless `forRead`, for reading. */
  ghost predicate Busy(s: State, c: nat, id: ID, forRead: bool) {
    exists d :: d in s.calls && d != c && (Writes(s.calls[d]) || (!forRead && Reads(s.calls[d]))) && s.calls[d].id == id
  }

  /** A reader is admitted exactly when nobody writes the artifact. */
  lemma ReadGrantedExactly(states: seq<State>, events: seq<Event>, n: nat)
    requires IsRun(states, events) && n < |events| && events[n].ReadLock?
    ensures var c, id := events[n].c, events[n].id;
      c in states[n + 1].calls && states[n + 1].calls[c] == if Busy(states[n], c, id, true) then Done else Looking(id)
  {
    RunsKeepInv(states, events, n);
    LockTablesSay(states[n], events[n].c, events[n].id);
  }

  /** The lock tables and the calls tell the same story about an id that `c` does not hold. */
  lemma LockTablesSay(s: State, c: nat, id: ID)
    requires Inv(s) && (c in s.calls ==> !Writes(s.calls[c]) && !Reads(s.calls[c]))
    ensures id in s.writeLocked <==> Busy(s, c, id, true)
    ensures id in s.writeLocked || Get(s.readLocked, id) > 0 <==> Busy(s, c, id, false)
  {
    assert Get(s.readLocked, id) == |Readers(s.calls, id)|;
    if Get(s.readLocked, id) > 0 {
      var d :| d in Readers(s.calls, id);
    }
    if d :| d in s.calls && Reads(s.calls[d]) && s.calls[d].id == id {
      assert d in Readers(s.calls, id);
    }
  }

  /**
   * A writer is admitted exactly when nobody reads or writes the artifact and os.Stat allows it: Create
   * needs it absent, Remove only needs an answer. The mutex is given back either way.
   */
  lemma WriteGrantedExactly(states: seq<State>, events: seq<Event>, n: nat)
    requires IsRun(states, events) && n < |events| && events[n].WriteLock?
    ensures var c := events[n].c; var p := states[n].calls[c];
      c in states[n + 1].calls && states[n + 1].mu == None &&
      states[n + 1].calls[c] ==
        if p.stat.Missing? || (p.stat.Found? && p.remove) then
          if Busy(states[n], c, p.id, false) then Done else if p.remove then Removing(p.id) else Preparing(p.id)
        else Done
  {
    RunsKeepInv(states, events, n);
    LockTablesSay(states[n], events[n].c, states[n].calls[events[n].c].id);
  }

  /** When all of a directory has been removed, the artifact is gone, and no other one is touched. */
  lemma EraseErases(states: seq<State>, events: seq<Event>, n: nat, id: ID)
    requires IsRun(states, events) && n < |events| && events[n].Erase? && events[n].left.None?
    ensures var p := states[n].calls[events[n].c]; var s, t := states[n], states[n + 1];
      (p.Removing? || p.Aborting?) &&
      (id in t.store <==> id in s.store && p != Removing(id)) && (id in t.tmp <==> id in s.tmp && p != Aborting(id)) &&
      (id in t.store ==> t.store[id] == s.store[id]) && (id in t.tmp ==> t.tmp[id] == s.tmp[id])
  {
    assert states[n + 1] == Next(states[n], events[n]);
  }

  ghost predicate OwnStep(s: State, e: Event, c: nat) { e.c == c && Enabled(s, e) }

  /** No call waits for another: it can go on by itself, or as soon as the holder of the mutex has, which always can. */
  lemma NoCallIsStuck(states: seq<State>, events: seq<Event>, n: nat, c: nat)
    requires IsRun(states, events) && n < |states| && c in states[n].calls && !states[n].calls[c].Done?
    ensures (exists e :: OwnStep(states[n], e, c)) ||
      (states[n].mu.Some? && OwnStep(states[n], WriteLock(states[n].mu.value), states[n].mu.value))
  {
    MutexIsHeld(states, events, n);
    RunsKeepInv(states, events, n);
    var s := states[n];
    match s.calls[c]
    case Statted(_, _, _) => assert OwnStep(s, WriteLock(c), c);
    case Preparing(_) => assert OwnStep(s, Mkdir(c, false), c);
    case Writing(_) => assert OwnStep(s, BeginAbort(c), c);
    case Aborting(_) => assert OwnStep(s, EndErase(c), c);
    case Removing(_) => assert OwnStep(s, EndErase(c), c);
    case Unlocking(_) => if s.mu == None { assert OwnStep(s, WriteUnlock(c), c); }
    case Looking(_) => assert OwnStep(s, StatRead(c, Broken), c);
    case Using(_, _) => if s.mu == None { assert OwnStep(s, ReadUnlock(c), c); }
    case Dropping(_) => if s.mu == None { assert OwnStep(s, ReadUnlock(c), c); }
  }

  /** Whoever has the mutex between two steps is a writer that has asked the file system. */
  lemma {:induction false} MutexIsHeld(states: seq<State>, events: seq<Event>, n: nat)
    requires IsRun(states, events) && n < |states|
    ensures var s := states[n]; s.mu.Some? ==> s.mu.value in s.calls && s.calls[s.mu.value].Statted?
  {
    if n > 0 {
      MutexIsHeld(states, events, n - 1);
      RunsKeepInv(states, events, n - 1);
      HolderStays(states[n - 1], events[n - 1]);
    }
  }

  lemma HolderStays(s: State, e: Event)
    requires Enabled(s, e) && (s.mu.Some? ==> s.mu.value in s.calls && s.calls[s.mu.value].Statted?)
    ensures var t := Next(s, e); t.mu.Some? ==> t.mu.value in t.calls && t.calls[t.mu.value].Statted?
  {
  }

  /** A path returned by Get keeps existing, with the same content, until its unlock. */
  lemma {:induction false} PathStays(states: seq<State>, events: seq<Event>, m: nat, n: nat, c: nat)
    requires IsRun(states, events) && m <= n < |states| && c in states[m].calls && states[m].calls[c].Using?
    requires forall i :: m <= i < n ==> events[i] != ReadUnlock(c)
    ensures c in states[n].calls && states[n].calls[c] == states[m].calls[c]
    ensures var p := states[m].calls[c]; p.id in states[n].store && states[n].store[p.id] == p.content
    decreases n
  {
    if m < n {
      PathStays(states, events, m, n - 1, c);
      UsingStays(states[n - 1], events[n - 1], c);
    }
    RunsKeepInv(states, events, n);
  }

  /** Two creators never share a directory: while one fills its own, nobody else holds that id. */
  lemma CreatorsAreAlone(states: seq<State>, events: seq<Event>, n: nat, c: nat, d: nat)
    requires IsRun(states, events) && n < |states| && c != d && c in states[n].calls && d in states[n].calls
    requires Writes(states[n].calls[c]) && (Writes(states[n].calls[d]) || Reads(states[n].calls[d]))
    ensures states[n].calls[c].id != states[n].calls[d].id
  {
    RunsKeepInv(states, events, n);
    if Reads(states[n].calls[d]) {
      ReadersExclude(states[n], d, c);
    }
  }

  /** When no call holds a lock, none is left behind. */
  lemma NoLockLeftBehind(states: seq<State>, events: seq<Event>, n: nat)
    requires IsRun(states, events) && n < |states| && forall c :: c in states[n].calls ==> states[n].calls[c].Done?
    ensures states[n].writeLocked == {} && states[n].readLocked == map[]
  {
    RunsKeepInv(states, events, n);
    forall id: ID ensures id !in states[n].readLocked {
      assert Get(states[n].readLocked, id) == |Readers(states[n].calls, id)|;
      assert Readers(states[n].calls, id) == {};
    }
  }
}
