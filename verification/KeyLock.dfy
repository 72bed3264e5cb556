/** The lock manager of keylock/keylock.go. Each method is one stretch of code run under the mutex; together
    with `LockKeys` parking outside the mutex these are all the steps a goroutine can take. */
module KeyLock {
  import opened KeyLockState

  class Waiter {
    var neededCnt: int
    const usingKeys: seq<Key>
    var inStarting: bool
    // messages in the channel, whose capacity is 1
    var blocker: nat

    ghost predicate Plays(r: Request)
      reads this
    {
      r.keys == usingKeys && blocker == (if r.role.Granted? then 1 else 0) &&
      (r.role.Queued? ==> !inStarting) && (r.role.Granted? ==> inStarting)
    }

    constructor (neededCnt: int, usingKeys: seq<Key>)
      ensures this.neededCnt == neededCnt && this.usingKeys == usingKeys && !inStarting && blocker == 0
    {
      this.neededCnt, this.usingKeys, inStarting, blocker := neededCnt, usingKeys, false, 0;
    }
  }

  type Lists = map<Key, seq<Waiter>>

  /** How many entries of `keys` are locked. */
  ghost function CountLocked(keys: seq<Key>, locked: set<Key>): nat {
    if keys == [] then 0
    else CountLocked(keys[..|keys| - 1], locked) + if keys[|keys| - 1] in locked then 1 else 0
  }

  lemma {:induction false} CountLockedAdd(keys: seq<Key>, locked: set<Key>, key: Key)
    requires key !in locked
    ensures CountLocked(keys, locked + {key}) == CountLocked(keys, locked) + multiset(keys)[key]
  {
    if keys != [] {
      var init, last := keys[..|keys| - 1], keys[|keys| - 1];
      assert keys == init + [last];
      CountLockedAdd(init, locked, key);
    }
  }

  lemma {:induction false} CountLockedZero(keys: seq<Key>, locked: set<Key>)
    ensures CountLocked(keys, locked) == 0 <==> forall k :: k in keys ==> k !in locked
  {
    if keys != [] {
      var init, last := keys[..|keys| - 1], keys[|keys| - 1];
      assert keys == init + [last];
      CountLockedZero(init, locked);
    }
  }

  /** How often `w` stands in the list of `key`. */
  ghost function Slots(lists: Lists, key: Key, w: Waiter): nat {
    if key in lists then multiset(lists[key])[w] else 0
  }

  /** `lists` holds each queued waiter once per occurrence, in its request, of a key of the given kind
      (locked or free), and holds nothing else. */
  ghost predicate Listed(lists: Lists, queued: set<Waiter>, locked: set<Key>, kind: bool) {
    (forall key, w :: key in lists && w in lists[key] ==> w in queued) &&
    forall w, key :: w in queued ==>
      Slots(lists, key, w) == if (key in locked) == kind then multiset(w.usingKeys)[key] else 0
  }

  function Append(lists: Lists, key: Key, arr: seq<Waiter>): Lists {
    lists[key := (if key in lists then lists[key] else []) + arr]
  }

  /** Moving the whole list of `key` from `src` to `dst` accounts for `key` changing its kind. */
  lemma MoveKeepsListed(src: Lists, dst: Lists, queued: set<Waiter>, locked: set<Key>, locked': set<Key>, key: Key,
    kind: bool)
    requires Listed(src, queued, locked, !kind) && Listed(dst, queued, locked, kind)
    requires (key in locked') == kind && forall k :: k != key ==> (k in locked <==> k in locked')
    ensures Listed(src - {key}, queued, locked', !kind)
    ensures key in src ==> Listed(Append(dst, key, src[key]), queued, locked', kind)
    ensures key !in src ==> Listed(dst, queued, locked', kind)
  {
    forall w, k | w in queued
      ensures Slots(src - {key}, k, w) == if (k in locked') == !kind then multiset(w.usingKeys)[k] else 0
    {
      assert k != key ==> Slots(src - {key}, k, w) == Slots(src, k, w);
    }
    if key in src {
      var app := Append(dst, key, src[key]);
      forall w, k | w in queued
        ensures Slots(app, k, w) == if (k in locked') == kind then multiset(w.usingKeys)[k] else 0
      {
        assert Slots(app, k, w) == Slots(dst, k, w) + if k == key then Slots(src, key, w) else 0;
      }
    } else {
      forall w, k | w in queued
        ensures Slots(dst, k, w) == if (k in locked') == kind then multiset(w.usingKeys)[k] else 0
      {
        assert Slots(src, key, w) == 0;
      }
    }
  }

  /** The exact accounting of the waiters in `queued`. */
  ghost predicate Counted(queued: set<Waiter>, locked: set<Key>)
    reads queued
  {
    forall w :: w in queued ==> w.neededCnt == CountLocked(w.usingKeys, locked)
  }

  function Signed(up: bool, n: int): int { if up then n else -n }

  lemma OneMore(arr: seq<Waiter>, i: nat, w: Waiter)
    requires i < |arr|
    ensures multiset(arr[..i + 1])[w] == multiset(arr[..i])[w] + if w == arr[i] then 1 else 0
  {
    assert arr[..i + 1] == arr[..i] + [arr[i]];
  }

  /** The loop `for _, k := range arr { k.neededCnt++ }`, or `--`. */
  method Shift(arr: seq<Waiter>, up: bool)
    modifies (set w | w in arr)`neededCnt
    ensures forall w :: w in arr ==> w.neededCnt == old(w.neededCnt) + Signed(up, multiset(arr)[w])
  {
    for i := 0 to |arr|
      invariant forall w :: w in arr ==> w.neededCnt == old(w.neededCnt) + Signed(up, multiset(arr[..i])[w])
    {
      forall w | w in arr ensures multiset(arr[..i + 1])[w] == multiset(arr[..i])[w] + if w == arr[i] then 1 else 0 {
        OneMore(arr, i, w);
      }
      arr[i].neededCnt := arr[i].neededCnt + if up then 1 else -1;
    }
    assert arr[..|arr|] == arr;
  }

  /** Swap-removal of the first `w` in `arr`. */
  method RemoveOne(arr: seq<Waiter>, w: Waiter) returns (rest: seq<Waiter>)
    ensures multiset(rest) == multiset(arr) - multiset{w}
  {
    rest := arr;
    for i := 0 to |arr|
      invariant w !in arr[..i]
    {
      if arr[i] == w {
        var last := |arr| - 1;
        rest := arr[i := arr[last]];
        rest := rest[..last];
        assert arr == arr[..last] + [arr[last]];
        assert i < last ==> rest == arr[..last][i := arr[last]];
        return;
      }
    }
    assert arr == arr[..|arr|];
  }

  function Left(before: nat, removed: nat): nat {
    if before <= removed then 0 else before - removed
  }

  /** `rest` is `lists` after one removal of `w` per entry of `keys`. */
  ghost predicate Removed(lists: Lists, rest: Lists, w: Waiter, keys: seq<Key>) {
    rest.Keys == lists.Keys && forall key :: key in lists ==> RemovedAt(lists[key], rest[key], w, multiset(keys)[key])
  }

  /** `rest` is `list` without `n` occurrences of `w`, or without any if it has fewer. */
  ghost predicate RemovedAt(list: seq<Waiter>, rest: seq<Waiter>, w: Waiter, n: int)
    requires n >= 0
  {
    multiset(rest) == multiset(list)[w := Left(multiset(list)[w], n)]
  }

  lemma RemovedOneMore(lists: Lists, rest: Lists, w: Waiter, keys: seq<Key>, key: Key, arr: seq<Waiter>)
    requires Removed(lists, rest, w, keys)
    requires key in rest ==> multiset(arr) == multiset(rest[key]) - multiset{w}
    ensures Removed(lists, if key in rest then rest[key := arr] else rest, w, keys + [key])
  {
    var rest' := if key in rest then rest[key := arr] else rest;
    forall k | k in lists ensures RemovedAt(lists[k], rest'[k], w, multiset(keys + [key])[k]) {
      CountOne(keys, key, k);
      if k == key {
        LeftOneMore(lists[k], rest[k], arr, w, multiset(keys)[k]);
      }
    }
  }

  lemma CountOne(keys: seq<Key>, key: Key, k: Key)
    ensures multiset(keys + [key])[k] == multiset(keys)[k] + if k == key then 1 else 0
  {
  }

  lemma LeftOneMore(list: seq<Waiter>, rest: seq<Waiter>, arr: seq<Waiter>, w: Waiter, n: nat)
    requires RemovedAt(list, rest, w, n) && multiset(arr) == multiset(rest) - multiset{w}
    ensures RemovedAt(list, arr, w, n + 1)
  {
  }

  /** One storage of removeWaiter: one removal per key occurrence. */
  method RemoveFrom(lists: Lists, w: Waiter, keys: seq<Key>) returns (rest: Lists)
    ensures Removed(lists, rest, w, keys)
  {
    rest := lists;
    for i := 0 to |keys|
      invariant Removed(lists, rest, w, keys[..i])
    {
      assert keys[..i + 1] == keys[..i] + [keys[i]];
      ghost var before, arr := rest, [];
      if keys[i] in rest {
        var arr' := RemoveOne(rest[keys[i]], w);
        rest, arr := rest[keys[i] := arr'], arr';
      }
      RemovedOneMore(lists, before, w, keys[..i], keys[i], arr);
    }
    assert keys[..|keys|] == keys;
  }

  ghost function QueuedIn(s: State<Waiter>): set<Waiter> {
    set w | w in s && s[w].role.Queued?
  }

  /** `locked` is the union of the owners' keys. */
  ghost predicate LockedIsOwned(locked: set<Key>, s: State<Waiter>) {
    (forall k :: k in locked ==> exists w :: w in s && Owns(s, w) && k in s[w].keys) &&
    forall w, k :: w in s && Owns(s, w) && k in s[w].keys ==> k in locked
  }

  lemma ZeroMeansFree(s: State<Waiter>, locked: set<Key>, keys: seq<Key>)
    requires LockedIsOwned(locked, s)
    ensures CountLocked(keys, locked) == 0 <==> Free(s, keys)
  {
  }

  /** Whoever is grantable once the request of `w` is gone, but was not before, waits for a key of `w`. */
  lemma DroppingKeepsQueue(s: State<Waiter>, w: Waiter)
    requires w in s && Owns(s, w)
    ensures QueuedIn(s - {w}) == QueuedIn(s) && w !in QueuedIn(s)
  {
  }

  lemma DroppingUnlocks(s: State<Waiter>, w: Waiter, locked: set<Key>)
    requires w in s && Owns(s, w) && Exclusive(s) && LockedIsOwned(locked, s)
    ensures Exclusive(s - {w}) && LockedIsOwned(locked - (set k | k in s[w].keys), s - {w})
  {
    var remaining := locked - set k | k in s[w].keys;
    forall k | k in remaining
      ensures exists v :: v in s - {w} && Owns(s - {w}, v) && k in (s - {w})[v].keys
    {
      var v :| v in s && Owns(s, v) && k in s[v].keys;
      assert v in s - {w} && Owns(s - {w}, v);
    }
  }

  lemma ResumingKeepsOwners(s: State<Waiter>, w: Waiter, locked: set<Key>)
    requires Exclusive(s) && LockedIsOwned(locked, s) && w in s && s[w].role.Granted?
    ensures Exclusive(s[w := Request(Holding, s[w].keys)])
    ensures LockedIsOwned(locked, s[w := Request(Holding, s[w].keys)])
    ensures QueuedIn(s[w := Request(Holding, s[w].keys)]) == QueuedIn(s)
  {
    var t := s[w := Request(Holding, s[w].keys)];
    forall k | k in locked ensures exists v :: v in t && Owns(t, v) && k in t[v].keys {
      var v :| v in s && Owns(s, v) && k in s[v].keys;
      assert v in t && Owns(t, v);
    }
  }

  lemma QueueingKeepsOwners(s: State<Waiter>, w: Waiter, keys: seq<Key>, locked: set<Key>)
    requires Exclusive(s) && LockedIsOwned(locked, s) && w !in s
    ensures Exclusive(s[w := Request(Queued, keys)]) && LockedIsOwned(locked, s[w := Request(Queued, keys)])
  {
    var t := s[w := Request(Queued, keys)];
    forall k | k in locked ensures exists v :: v in t && Owns(t, v) && k in t[v].keys {
      var v :| v in s && Owns(s, v) && k in s[v].keys;
      assert v in t && Owns(t, v);
    }
  }

  lemma TakingLocks(s: State<Waiter>, w: Waiter, keys: seq<Key>, role: Role, locked: set<Key>)
    requires Exclusive(s) && LockedIsOwned(locked, s) && Free(s, keys) && !role.Queued?
    requires w in s ==> s[w].role.Queued?
    ensures Exclusive(s[w := Request(role, keys)])
    ensures LockedIsOwned(locked + (set k | k in keys), s[w := Request(role, keys)])
  {
    var t := s[w := Request(role, keys)];
    var taken := locked + set k | k in keys;
    forall k | k in taken
      ensures exists v :: v in t && Owns(t, v) && k in t[v].keys
    {
      if k in keys {
        assert w in t && Owns(t, w);
      } else {
        var v :| v in s && Owns(s, v) && k in s[v].keys;
        assert v in t && Owns(t, v);
      }
    }
  }

  /** The search of wakeUp's inner loop. */
  method FirstReady(arr: seq<Waiter>) returns (j: nat)
    ensures j <= |arr| && (j < |arr| ==> arr[j].neededCnt == 0)
    ensures forall w :: w in arr[..j] ==> w.neededCnt != 0
  {
    for j' := 0 to |arr|
      invariant forall w :: w in arr[..j'] ==> w.neededCnt != 0
    {
      if arr[j'].neededCnt == 0 {
        return j';
      }
    }
    return |arr|;
  }

  /** The counting loop of LockKeys. */
  method Classify(keys: seq<Key>, locked: set<Key>) returns (neededCnt: int, curNeeded: seq<Key>, curFree: seq<Key>)
    ensures neededCnt == CountLocked(keys, locked)
    ensures forall k :: multiset(curNeeded)[k] == if k in locked then multiset(keys)[k] else 0
    ensures forall k :: multiset(curFree)[k] == if k in locked then 0 else multiset(keys)[k]
  {
    neededCnt, curNeeded, curFree := 0, [], [];
    for i := 0 to |keys|
      invariant neededCnt == CountLocked(keys[..i], locked)
      invariant forall k :: multiset(curNeeded)[k] == if k in locked then multiset(keys[..i])[k] else 0
      invariant forall k :: multiset(curFree)[k] == if k in locked then 0 else multiset(keys[..i])[k]
    {
      assert keys[..i + 1] == keys[..i] + [keys[i]];
      assert keys[..i + 1][..i] == keys[..i];
      if keys[i] in locked {
        neededCnt := neededCnt + 1;
        curNeeded := curNeeded + [keys[i]];
      } else {
        curFree := curFree + [keys[i]];
      }
    }
    assert keys[..|keys|] == keys;
  }

  class KeyLock {
    var keysNeeded: Lists
    var keysFree: Lists
    var allLockedKeys: set<Key>
    ghost var state: State<Waiter>

    /** What every line of the critical sections below keeps. */
    ghost predicate Core()
      reads this, state.Keys
    {
      Accounted(QueuedIn(state)) && Exclusive(state) && LockedIsOwned(allLockedKeys, state) &&
      forall w :: w in state ==> w.Plays(state[w])
    }

    /** What holds whenever the mutex is free. */
    ghost predicate Valid()
      reads this, state.Keys
    {
      Core() && Inv(state)
    }

    ghost predicate Accounted(queued: set<Waiter>)
      reads this, queued
    {
      Counted(queued, allLockedKeys) &&
      Listed(keysNeeded, queued, allLockedKeys, true) && Listed(keysFree, queued, allLockedKeys, false)
    }

    /** Takes `keys` for somebody and moves the waiters listed under them to `keysNeeded`. */
    method MarkLocked(keys: seq<Key>, ghost queued: set<Waiter>)
      requires Accounted(queued)
      modifies this`keysNeeded, this`keysFree, this`allLockedKeys, queued`neededCnt
      ensures Accounted(queued)
      ensures allLockedKeys == old(allLockedKeys) + set k | k in keys
    {
      for i := 0 to |keys|
        invariant Accounted(queued)
        invariant allLockedKeys == old(allLockedKeys) + set k | k in keys[..i]
      {
        MarkOneLocked(keys[i], queued);
      }
      assert keys[..|keys|] == keys;
    }

    /** The body of the loop of lockKeys. */
    method MarkOneLocked(key: Key, ghost queued: set<Waiter>)
      requires Accounted(queued)
      modifies this`keysNeeded, this`keysFree, this`allLockedKeys, queued`neededCnt
      ensures Accounted(queued)
      ensures allLockedKeys == old(allLockedKeys) + {key}
    {
      ghost var locked := allLockedKeys;
      MoveKeepsListed(keysFree, keysNeeded, queued, locked, locked + {key}, key, true);
      ghost var moved := if key in keysFree then keysFree[key] else [];
      assert forall w :: w in queued ==> multiset(moved)[w] == Slots(keysFree, key, w);
      allLockedKeys := allLockedKeys + {key};
      if key in keysFree {
        var arr := keysFree[key];
        Shift(arr, true);
        keysNeeded := Append(keysNeeded, key, arr);
        keysFree := keysFree - {key};
      }
      assert keysFree == old(keysFree) - {key};
      forall w | w in queued ensures w.neededCnt == CountLocked(w.usingKeys, allLockedKeys) {
        assert w.neededCnt == old(w.neededCnt) + multiset(moved)[w];
        if key !in locked { CountLockedAdd(w.usingKeys, locked, key); }
        else { assert allLockedKeys == locked; }
      }
    }

    /** Gives `keys` back and moves the waiters listed under them to `keysFree`. */
    method FreeKeys(keys: seq<Key>, ghost queued: set<Waiter>)
      requires Accounted(queued)
      modifies this`keysNeeded, this`keysFree, this`allLockedKeys, queued`neededCnt
      ensures Accounted(queued)
      ensures allLockedKeys == old(allLockedKeys) - set k | k in keys
    {
      for i := 0 to |keys|
        invariant Accounted(queued)
        invariant allLockedKeys == old(allLockedKeys) - set k | k in keys[..i]
      {
        FreeKey(keys[i], queued);
      }
      assert keys[..|keys|] == keys;
    }

    /** The body of the loop of freeKeys. */
    method FreeKey(key: Key, ghost queued: set<Waiter>)
      requires Accounted(queued)
      modifies this`keysNeeded, this`keysFree, this`allLockedKeys, queued`neededCnt
      ensures Accounted(queued)
      ensures allLockedKeys == old(allLockedKeys) - {key}
    {
      ghost var locked := allLockedKeys;
      MoveKeepsListed(keysNeeded, keysFree, queued, locked, locked - {key}, key, false);
      ghost var moved := if key in keysNeeded then keysNeeded[key] else [];
      assert forall w :: w in queued ==> multiset(moved)[w] == Slots(keysNeeded, key, w);
      allLockedKeys := allLockedKeys - {key};
      if key in keysNeeded {
        var arr := keysNeeded[key];
        Shift(arr, false);
        keysFree := Append(keysFree, key, arr);
        keysNeeded := keysNeeded - {key};
      }
      assert keysNeeded == old(keysNeeded) - {key};
      forall w | w in queued ensures w.neededCnt == CountLocked(w.usingKeys, allLockedKeys) {
        assert w.neededCnt == old(w.neededCnt) - multiset(moved)[w];
        if key in locked { CountLockedAdd(w.usingKeys, allLockedKeys, key); assert allLockedKeys + {key} == locked; }
        else { assert allLockedKeys == locked; }
      }
    }

    method RemoveWaiter(w: Waiter, ghost queued: set<Waiter>)
      requires Accounted(queued) && w in queued
      modifies this`keysNeeded, this`keysFree
      ensures Accounted(queued - {w})
    {
      keysNeeded := RemoveFrom(keysNeeded, w, w.usingKeys);
      keysFree := RemoveFrom(keysFree, w, w.usingKeys);
      RemovedIsUnlisted(old(keysNeeded), keysNeeded, w, queued, allLockedKeys, true);
      RemovedIsUnlisted(old(keysFree), keysFree, w, queued, allLockedKeys, false);
    }

    /** The two calls in the middle of wakeUp's inner `if`. */
    method TakeKeys(w: Waiter, ghost queued: set<Waiter>)
      requires Accounted(queued) && w in queued
      modifies this`keysNeeded, this`keysFree, this`allLockedKeys, queued`neededCnt
      ensures Accounted(queued - {w}) && allLockedKeys == old(allLockedKeys) + set k | k in w.usingKeys
    {
      MarkLocked(w.usingKeys, queued);
      RemoveWaiter(w, queued);
    }

    /** wakeUp's inner `if`: hands the keys of `w` to `w`. The send finds the buffer empty, so it cannot block. */
    method Start(w: Waiter)
      requires Core() && CanGrant(state, w)
      modifies this, state.Keys
      ensures Core() && state == Grant(old(state), w)
    {
      TakingLocks(state, w, w.usingKeys, Granted, allLockedKeys);
      assert QueuedIn(Grant(state, w)) == QueuedIn(state) - {w};
      w.inStarting := true;
      TakeKeys(w, QueuedIn(state));
      state := Grant(state, w);
      Send(w);
    }

    /** `k.blocker <- struct{}{}` */
    method Send(w: Waiter)
      requires w in state && w.blocker < 1 && w.inStarting && state[w] == Request(Granted, w.usingKeys)
      requires Accounted(QueuedIn(state)) && Exclusive(state) && LockedIsOwned(allLockedKeys, state)
      requires forall v :: v in state && v != w ==> v.Plays(state[v])
      modifies w`blocker
      ensures Core()
    {
      w.blocker := w.blocker + 1;
    }

    lemma GrantableIsListed(w: Waiter, key: Key)
      requires Core() && w in state && state[w].role.Queued?
      ensures w.neededCnt == 0 <==> CanGrant(state, w)
      ensures CanGrant(state, w) && key in w.usingKeys ==> key in keysFree && w in keysFree[key]
    {
      assert w in QueuedIn(state);
      ZeroMeansFree(state, allLockedKeys, w.usingKeys);
      CountLockedZero(w.usingKeys, allLockedKeys);
      assert key in w.usingKeys && key !in allLockedKeys ==> Slots(keysFree, key, w) > 0;
    }

    lemma ListedIsQueued(w: Waiter, key: Key)
      requires Core() && key in keysFree && w in keysFree[key]
      ensures w in state && state[w].role.Queued? && key in state[w].keys
      ensures w.neededCnt == 0 <==> CanGrant(state, w)
    {
      assert w in QueuedIn(state);
      assert Slots(keysFree, key, w) > 0;
      GrantableIsListed(w, key);
    }

    /** The body of the loop of wakeUp: hands the keys of a waiter of `key` over, if one can be granted. */
    method WakeUpKey(key: Key) returns (ghost woken: seq<Waiter>)
      requires Core()
      modifies this, state.Keys
      ensures Core()
      ensures |woken| <= 1 && CanGrantAll(old(state), woken) && state == GrantAll(old(state), woken)
      ensures if woken == [] then NobodyReady(state, key) else key in old(state)[woken[0]].keys
    {
      woken := [];
      if key in keysFree {
        var arr := keysFree[key];
        var j := FirstReady(arr);
        if j < |arr| {
          ListedIsQueued(arr[j], key);
          GrantAllOne(state, arr[j]);
          Start(arr[j]);
          return [arr[j]];
        }
      }
      forall w | w in state && CanGrant(state, w) ensures key !in state[w].keys {
        GrantableIsListed(w, key);
      }
    }

    /** Hands freed keys over, at most one waiter per key. */
    method WakeUp(keys: seq<Key>) returns (ghost woken: seq<Waiter>)
      requires Core()
      modifies this, state.Keys
      ensures Core() && HandOffs(old(state), keys, woken) && state == GrantAll(old(state), woken)
    {
      woken := [];
      for i := 0 to |keys|
        invariant Core() && state.Keys == old(state.Keys)
        invariant HandOffs(old(state), keys[..i], woken) && state == GrantAll(old(state), woken)
      {
        ghost var more := WakeUpKey(keys[i]);
        HandOffsNext(old(state), keys, i, woken, more);
        woken := woken + more;
      }
      assert keys[..|keys|] == keys;
    }

    constructor ()
      ensures Valid() && state == map[]
    {
      keysNeeded, keysFree, allLockedKeys, state := map[], map[], {}, map[];
    }

    /** LockKeys up to the point where it returns at once or parks in the `select`. */
    method LockKeys(keys: seq<Key>) returns (waiter: Waiter, immediate: bool)
      requires Valid()
      modifies this, state.Keys
      ensures Valid() && fresh(waiter)
      ensures Step(old(state), if immediate then LockFast(waiter, keys) else Enqueue(waiter, keys), state)
      ensures immediate <==> Free(old(state), keys)
      ensures state == old(state)[waiter := Request(if immediate then Holding else Queued, keys)]
    {
      var neededCnt, curNeeded, curFree := Classify(keys, allLockedKeys);
      ZeroMeansFree(state, allLockedKeys, keys);
      waiter := new Waiter(neededCnt, keys);
      if neededCnt == 0 {
        StepKeepsInv(state, LockFast(waiter, keys), state[waiter := Request(Holding, keys)]);
        Hold(waiter);
        return waiter, true;
      }
      StepKeepsInv(state, Enqueue(waiter, keys), state[waiter := Request(Queued, keys)]);
      EnlistWaiter(waiter, curNeeded, curFree);
      return waiter, false;
    }

    /** The fast path of LockKeys: nobody owns any of the keys. */
    method Hold(waiter: Waiter)
      requires Core() && waiter !in state && Free(state, waiter.usingKeys)
      requires waiter.Plays(Request(Holding, waiter.usingKeys))
      modifies this, state.Keys
      ensures Core() && state == old(state)[waiter := Request(Holding, waiter.usingKeys)]
    {
      ghost var after := state[waiter := Request(Holding, waiter.usingKeys)];
      assert QueuedIn(after) == QueuedIn(state);
      TakingLocks(state, waiter, waiter.usingKeys, Holding, allLockedKeys);
      MarkLocked(waiter.usingKeys, QueuedIn(state));
      state := after;
    }

    /** The slow path of LockKeys: joins the list of every requested key. */
    method EnlistWaiter(waiter: Waiter, curNeeded: seq<Key>, curFree: seq<Key>)
      requires Core() && waiter !in state && waiter.Plays(Request(Queued, waiter.usingKeys))
      requires waiter.neededCnt == CountLocked(waiter.usingKeys, allLockedKeys)
      requires forall k :: multiset(curNeeded)[k] == if k in allLockedKeys then multiset(waiter.usingKeys)[k] else 0
      requires forall k :: multiset(curFree)[k] == if k in allLockedKeys then 0 else multiset(waiter.usingKeys)[k]
      modifies this
      ensures Core() && state == old(state)[waiter := Request(Queued, waiter.usingKeys)]
    {
      ghost var queued, after := QueuedIn(state), state[waiter := Request(Queued, waiter.usingKeys)];
      assert QueuedIn(after) == queued + {waiter};
      keysNeeded := Enlist(keysNeeded, curNeeded, waiter, queued, allLockedKeys, true);
      keysFree := Enlist(keysFree, curFree, waiter, queued, allLockedKeys, false);
      QueueingKeepsOwners(state, waiter, waiter.usingKeys, allLockedKeys);
      state := after;
    }

    /** `<-waiter.blocker` wins the `select`. */
    method Resume(waiter: Waiter)
      requires Valid() && waiter in state && waiter.blocker > 0
      modifies this`state, waiter
      ensures Valid() && Step(old(state), Event.Resume(waiter), state)
      ensures state == old(state)[waiter := Request(Holding, old(state)[waiter].keys)]
    {
      StepKeepsInv(state, Event.Resume(waiter), state[waiter := Request(Holding, state[waiter].keys)]);
      Receive(waiter);
    }

    method Receive(waiter: Waiter)
      requires Core() && waiter in state && state[waiter].role.Granted?
      modifies this`state, waiter
      ensures Core() && state == old(state)[waiter := Request(Holding, old(state)[waiter].keys)]
    {
      ResumingKeepsOwners(state, waiter, allLockedKeys);
      waiter.blocker := waiter.blocker - 1;
      state := state[waiter := Request(Holding, state[waiter].keys)];
    }

    /** `<-cancel` wins the `select`, possibly after the keys have been handed over. */
    method Cancel(waiter: Waiter)
      requires Valid() && waiter in state && !state[waiter].role.Holding?
      modifies this, state.Keys
      ensures Valid()
      ensures old(state)[waiter].role.Queued? ==> Step(old(state), CancelQueued(waiter), state)
      ensures old(state)[waiter].role.Granted? ==>
                exists woken :: Step(old(state), CancelGranted(waiter, woken), state)
      ensures state.Keys == old(state).Keys - {waiter}
    {
      if waiter.inStarting {
        ghost var woken := Finish(waiter);
        assert Step(old(state), CancelGranted(waiter, woken), state);
        StepKeepsInv(old(state), CancelGranted(waiter, woken), state);
      } else {
        StepKeepsInv(state, CancelQueued(waiter), state - {waiter});
        Leave(waiter);
      }
    }

    method Leave(waiter: Waiter)
      requires Core() && waiter in state && state[waiter].role.Queued?
      modifies this
      ensures Core() && state == old(state) - {waiter}
    {
      ghost var after := state - {waiter};
      assert QueuedIn(after) == QueuedIn(state) - {waiter};
      RemoveWaiter(waiter, QueuedIn(state));
      state := after;
    }

    /** The `unlock` returned by LockKeys, called once. */
    method Unlock(waiter: Waiter)
      requires Valid() && waiter in state && state[waiter].role.Holding?
      modifies this, state.Keys
      ensures Valid() && exists woken :: Step(old(state), Event.Unlock(waiter, woken), state)
      ensures state.Keys == old(state).Keys - {waiter}
    {
      ghost var woken := Finish(waiter);
      assert Step(old(state), Event.Unlock(waiter, woken), state);
      StepKeepsInv(old(state), Event.Unlock(waiter, woken), state);
    }

    /** `freeKeys(keys); wakeUp(keys); waiter.inStarting = false`. */
    method Finish(waiter: Waiter) returns (ghost woken: seq<Waiter>)
      requires Core() && waiter in state && Owns(state, waiter)
      modifies this, state.Keys
      ensures Core() && Release(old(state), waiter, woken, state)
    {
      woken := ReleaseKeys(waiter);
      assert state.Keys == old(state).Keys - {waiter};
      waiter.inStarting := false;
    }

    /** `freeKeys(keys); wakeUp(keys)`. */
    method ReleaseKeys(waiter: Waiter) returns (ghost woken: seq<Waiter>)
      requires Core() && waiter in state && Owns(state, waiter)
      modifies this, state.Keys
      ensures Core() && Release(old(state), waiter, woken, state)
    {
      Drop(waiter);
      woken := WakeUp(waiter.usingKeys);
    }

    /** Gives the keys of an owner back, before anybody is told. */
    method Drop(waiter: Waiter)
      requires Core() && waiter in state && Owns(state, waiter)
      modifies this, state.Keys
      ensures Core() && state == old(state) - {waiter}
    {
      ghost var after := state - {waiter};
      DroppingKeepsQueue(state, waiter);
      DroppingUnlocks(state, waiter, allLockedKeys);
      GiveBack(waiter.usingKeys);
      state := after;
    }

    /** freeKeys, seen to touch nothing but lists and counters. */
    method GiveBack(keys: seq<Key>)
      requires Core()
      modifies this`keysNeeded, this`keysFree, this`allLockedKeys, QueuedIn(state)`neededCnt
      ensures Accounted(QueuedIn(state)) && allLockedKeys == old(allLockedKeys) - set k | k in keys
      ensures forall w :: w in state ==> w.Plays(state[w])
    {
      FreeKeys(keys, QueuedIn(state));
    }
  }

  /** `for _, key := range keys { lists[key] = append(lists[key], waiter) }` */
  method Enlist(lists: Lists, keys: seq<Key>, waiter: Waiter,
                ghost queued: set<Waiter>, ghost locked: set<Key>, ghost kind: bool) returns (longer: Lists)
    requires Listed(lists, queued, locked, kind) && waiter !in queued
    requires forall k :: multiset(keys)[k] == if (k in locked) == kind then multiset(waiter.usingKeys)[k] else 0
    ensures Listed(longer, queued + {waiter}, locked, kind)
  {
    longer := lists;
    for i := 0 to |keys|
      invariant forall k, w ::
        Slots(longer, k, w) == Slots(lists, k, w) + if w == waiter then multiset(keys[..i])[k] else 0
      invariant forall k, w :: k in longer && w in longer[k] ==> w == waiter || (k in lists && w in lists[k])
    {
      assert keys[..i + 1] == keys[..i] + [keys[i]];
      AppendSlots(longer, keys[i], waiter);
      longer := Append(longer, keys[i], [waiter]);
    }
    assert keys[..|keys|] == keys;
    EnlistedIsListed(lists, longer, keys, waiter, queued, locked, kind);
  }

  lemma AppendSlots(lists: Lists, key: Key, waiter: Waiter)
    ensures forall k, w :: Slots(Append(lists, key, [waiter]), k, w) ==
                           Slots(lists, k, w) + if k == key && w == waiter then 1 else 0
  {
  }

  lemma EnlistedIsListed(before: Lists, after: Lists, keys: seq<Key>, waiter: Waiter, queued: set<Waiter>,
                         locked: set<Key>, kind: bool)
    requires Listed(before, queued, locked, kind) && waiter !in queued
    requires forall k, w :: Slots(after, k, w) == Slots(before, k, w) + if w == waiter then multiset(keys)[k] else 0
    requires forall k, w :: k in after && w in after[k] ==> w == waiter || (k in before && w in before[k])
    requires forall k :: multiset(keys)[k] == if (k in locked) == kind then multiset(waiter.usingKeys)[k] else 0
    ensures Listed(after, queued + {waiter}, locked, kind)
  {
  }

  lemma GrantAllOne(s: State<Waiter>, w: Waiter)
    requires CanGrant(s, w)
    ensures CanGrantAll(s, [w]) && GrantAll(s, [w]) == Grant(s, w)
  {
    assert [w][..0] == [] && CanGrantAll(s, []) && GrantAll(s, []) == s;
  }

  lemma GrantAllConcat(s: State<Waiter>, ws: seq<Waiter>, more: seq<Waiter>)
    requires |more| <= 1 && CanGrantAll(s, ws) && CanGrantAll(GrantAll(s, ws), more)
    ensures CanGrantAll(s, ws + more) && GrantAll(s, ws + more) == GrantAll(GrantAll(s, ws), more)
  {
    if more == [] {
      assert ws + more == ws;
    } else {
      assert (ws + more)[..|ws + more| - 1] == ws;
      assert more[..0] == [];
      assert GrantAll(GrantAll(s, ws), more[..0]) == GrantAll(s, ws);
    }
  }

  /** One more round of the loop of wakeUp. */
  lemma HandOffsSnoc(s: State<Waiter>, keys: seq<Key>, key: Key, woken: seq<Waiter>, more: seq<Waiter>)
    requires HandOffs(s, keys, woken) && |more| <= 1 && CanGrantAll(GrantAll(s, woken), more)
    requires if more == [] then NobodyReady(GrantAll(s, woken), key) else key in GrantAll(s, woken)[more[0]].keys
    ensures HandOffs(s, keys + [key], woken + more)
    ensures GrantAll(s, woken + more) == GrantAll(GrantAll(s, woken), more)
  {
    GrantAllConcat(s, woken, more);
    assert (keys + [key])[..|keys|] == keys;
    if more == [] {
      assert woken + more == woken;
    } else {
      assert (woken + more)[..|woken|] == woken;
      GrantAllFrame(s, woken, more[0]);
    }
  }

  lemma HandOffsNext(s: State<Waiter>, keys: seq<Key>, i: nat, woken: seq<Waiter>, more: seq<Waiter>)
    requires i < |keys|
    requires HandOffs(s, keys[..i], woken) && |more| <= 1 && CanGrantAll(GrantAll(s, woken), more)
    requires if more == [] then NobodyReady(GrantAll(s, woken), keys[i])
             else keys[i] in GrantAll(s, woken)[more[0]].keys
    ensures HandOffs(s, keys[..i + 1], woken + more)
    ensures GrantAll(s, woken + more) == GrantAll(GrantAll(s, woken), more)
  {
    HandOffsSnoc(s, keys[..i], keys[i], woken, more);
    assert keys[..i + 1] == keys[..i] + [keys[i]];
  }

  lemma RemovedIsUnlisted(before: Lists, after: Lists, w: Waiter, queued: set<Waiter>, locked: set<Key>, kind: bool)
    requires Listed(before, queued, locked, kind) && w in queued && Removed(before, after, w, w.usingKeys)
    ensures Listed(after, queued - {w}, locked, kind)
  {
    forall key, x | key in after && x in after[key] ensures x in queued - {w} {
      assert Slots(after, key, x) > 0;
      assert Slots(before, key, w) <= multiset(w.usingKeys)[key];
      assert x != w ==> Slots(before, key, x) > 0;
    }
  }
}
