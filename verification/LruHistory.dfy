/** What a least-recently-used cache holds, told from the history of its accesses alone. */
module LruHistory {
  /** A Set, or a Get that found the key, with the value it left. */
  datatype Access = Access(key: int, value: int)

  predicate HasKey(s: seq<Access>, key: int) { exists i :: 0 <= i < |s| && s[i].key == key }

  predicate DistinctKeys(s: seq<Access>) { forall i, j :: 0 <= i < j < |s| ==> s[i].key != s[j].key }

  /** Of each key only the last access, in the order of those last accesses. */
  function Latest(h: seq<Access>): seq<Access> {
    if h == [] then [] else if HasKey(h[1..], h[0].key) then Latest(h[1..]) else [h[0]] + Latest(h[1..])
  }

  function Last(s: seq<Access>, n: nat): seq<Access> { if |s| <= n then s else s[|s| - n..] }

  /** What a cache of capacity `cap` holds after `h`, oldest first. */
  function Recent(h: seq<Access>, cap: nat): seq<Access> { Last(Latest(h), cap) }

  /** The sequence without the entry of `key`. */
  function Without(s: seq<Access>, key: int): seq<Access> {
    if s == [] then [] else if s[0].key == key then Without(s[1..], key) else [s[0]] + Without(s[1..], key)
  }

  lemma {:induction false} LatestIsDistinct(h: seq<Access>)
    ensures DistinctKeys(Latest(h)) && forall k :: HasKey(Latest(h), k) <==> HasKey(h, k)
  {
    if h != [] {
      LatestIsDistinct(h[1..]);
      var rest := Latest(h[1..]);
      forall k ensures HasKey(Latest(h), k) <==> HasKey(h, k) {
        HasKeyCons(h[0], h[1..], k);
        HasKeyCons(h[0], rest, k);
        assert [h[0]] + h[1..] == h;
      }
      if !HasKey(h[1..], h[0].key) {
        assert !HasKey(rest, h[0].key);
      }
    }
  }

  lemma HasKeyCons(a: Access, s: seq<Access>, k: int)
    ensures HasKey([a] + s, k) <==> a.key == k || HasKey(s, k)
  {
    if a.key == k { assert ([a] + s)[0].key == k; }
    if HasKey(s, k) {
      var i :| 0 <= i < |s| && s[i].key == k;
      assert ([a] + s)[i + 1].key == k;
    }
  }

  lemma {:induction false} HasKeyAppend(s: seq<Access>, a: Access, k: int)
    ensures HasKey(s + [a], k) <==> a.key == k || HasKey(s, k)
  {
    if a.key == k { assert (s + [a])[|s|].key == k; }
    if HasKey(s, k) {
      var i :| 0 <= i < |s| && s[i].key == k;
      assert (s + [a])[i].key == k;
    }
  }

  /** One more access moves its key to the end. */
  lemma {:induction false} LatestAppend(h: seq<Access>, a: Access)
    ensures Latest(h + [a]) == Without(Latest(h), a.key) + [a]
  {
    if h == [] {
      assert h + [a] == [a];
    } else {
      LatestAppend(h[1..], a);
      assert (h + [a])[1..] == h[1..] + [a];
      HasKeyAppend(h[1..], a, h[0].key);
      if !HasKey(h[1..], h[0].key) {
        assert ([h[0]] + Latest(h[1..]))[1..] == Latest(h[1..]);
        assert [h[0]] + (Without(Latest(h[1..]), a.key) + [a]) == ([h[0]] + Without(Latest(h[1..]), a.key)) + [a];
      }
    }
  }

  lemma {:induction false} WithoutAbsent(s: seq<Access>, k: int)
    requires !HasKey(s, k)
    ensures Without(s, k) == s
  {
    if s != [] {
      assert [s[0]] + s[1..] == s;
      HasKeyCons(s[0], s[1..], k);
      WithoutAbsent(s[1..], k);
    }
  }

  /** Removing the one entry of a key. */
  lemma {:induction false} WithoutAt(s: seq<Access>, i: nat)
    requires DistinctKeys(s) && i < |s|
    ensures Without(s, s[i].key) == s[..i] + s[i + 1..]
  {
    if i == 0 {
      assert !HasKey(s[1..], s[0].key);
      WithoutAbsent(s[1..], s[0].key);
    } else {
      WithoutAt(s[1..], i - 1);
      assert s[0].key != s[i].key;
      assert s[..i] == [s[0]] + s[1..][..i - 1];
    }
  }

  lemma InLast(s: seq<Access>, n: nat, i: nat)
    requires |s| - |Last(s, n)| <= i < |s|
    ensures HasKey(Last(s, n), s[i].key)
  {
  }

  /** Moving one of the last entries to the end keeps the same entries last. */
  lemma LastOfMoved(s: seq<Access>, n: nat, i: nat, a: Access)
    requires i < |Last(s, n)|
    ensures var t := Last(s, n); var k := |s| - |t| + i;
      Last(s[..k] + s[k + 1..] + [a], n) == t[..i] + t[i + 1..] + [a]
  {
  }

  /** A hit: the accessed entry goes to the end, whatever fell out before. */
  lemma RecentHit(h: seq<Access>, cap: nat, i: nat, value: int)
    requires i < |Recent(h, cap)|
    ensures var s := Recent(h, cap);
      Recent(h + [Access(s[i].key, value)], cap) == s[..i] + s[i + 1..] + [Access(s[i].key, value)]
  {
    var a := Access(Recent(h, cap)[i].key, value);
    LatestIsDistinct(h);
    LatestAppend(h, a);
    WithoutLast(Latest(h), cap, i);
    LastOfMoved(Latest(h), cap, i, a);
  }

  lemma WithoutLast(s: seq<Access>, n: nat, i: nat)
    requires DistinctKeys(s) && i < |Last(s, n)|
    ensures var k := |s| - |Last(s, n)| + i; Without(s, Last(s, n)[i].key) == s[..k] + s[k + 1..]
  {
    WithoutAt(s, |s| - |Last(s, n)| + i);
  }

  /** A new key: it goes to the end, and when the cache is full the oldest entry goes. */
  lemma RecentMiss(h: seq<Access>, cap: nat, a: Access)
    requires !HasKey(Recent(h, cap), a.key) && cap > 0
    ensures var s := Recent(h, cap);
      Recent(h + [a], cap) == (if |s| < cap then s else s[1..]) + [a]
  {
    var all, s := Latest(h), Recent(h, cap);
    LatestIsDistinct(h);
    LatestAppend(h, a);
    if HasKey(all, a.key) {
      var i :| 0 <= i < |all| && all[i].key == a.key;
      if i >= |all| - |s| { InLast(all, cap, i); }
      WithoutAt(all, i);
    } else {
      WithoutAbsent(all, a.key);
    }
  }

  lemma RecentIsSmall(h: seq<Access>, cap: nat)
    ensures |Recent(h, cap)| <= cap && DistinctKeys(Recent(h, cap))
  {
    LatestIsDistinct(h);
  }

  lemma Member<T>(keys: set<T>) returns (k: T)
    requires keys != {}
    ensures k in keys
  {
    k :| k in keys;
  }

  // ---- What that means, key by key ----

  function KeysOf(h: seq<Access>): set<int> { set a | a in h :: a.key }

  lemma {:induction false} LatestSize(h: seq<Access>)
    ensures |Latest(h)| == |KeysOf(h)|
  {
    if h != [] {
      LatestSize(h[1..]);
      var rest := KeysOf(h[1..]);
      assert h == [h[0]] + h[1..];
      assert KeysOf(h) == rest + {h[0].key};
      assert HasKey(h[1..], h[0].key) <==> h[0].key in rest;
    }
  }

  /** Nobody accesses the key of access `i` after it. */
  predicate IsLastAccess(h: seq<Access>, i: nat) { i < |h| && !HasKey(h[i + 1..], h[i].key) }

  /** Behind the last access of a key stand the last accesses of the keys accessed since. */
  lemma {:induction false} LatestFrom(h: seq<Access>, i: nat)
    requires IsLastAccess(h, i)
    ensures var s, later := Latest(h), Latest(h[i + 1..]);
      |later| < |s| && s[|s| - 1 - |later|] == h[i] && s[|s| - |later|..] == later
  {
    if i > 0 {
      assert h[1..][i..] == h[i + 1..] && h[1..][i - 1] == h[i];
      LatestFrom(h[1..], i - 1);
    }
  }

  /**
   * A key is held exactly if fewer than `cap` other keys were accessed since its last access; it holds the
   * value of that access, and stands before exactly the keys accessed since.
   */
  lemma RecentMeans(h: seq<Access>, cap: nat, i: nat)
    requires IsLastAccess(h, i)
    ensures HasKey(Recent(h, cap), h[i].key) <==> |KeysOf(h[i + 1..])| < cap
    ensures var s, n := Recent(h, cap), |KeysOf(h[i + 1..])|; n < cap ==> n < |s| && s[|s| - 1 - n] == h[i]
  {
    LatestFrom(h, i);
    LatestSize(h[i + 1..]);
    LatestIsDistinct(h);
  }

  /** Only keys that were accessed are held. */
  lemma RecentWasAccessed(h: seq<Access>, cap: nat, key: int)
    requires HasKey(Recent(h, cap), key)
    ensures exists i: nat :: IsLastAccess(h, i) && h[i].key == key
  {
    LatestIsDistinct(h);
    var j :| 0 <= j < |Recent(h, cap)| && Recent(h, cap)[j].key == key;
    assert Latest(h)[|Latest(h)| - |Recent(h, cap)| + j].key == key;
    var i := LastAccess(h, key);
  }

  lemma {:induction false} LastAccess(h: seq<Access>, key: int) returns (i: nat)
    requires HasKey(h, key)
    ensures IsLastAccess(h, i) && h[i].key == key
  {
    assert h == [h[0]] + h[1..];
    HasKeyCons(h[0], h[1..], key);
    if HasKey(h[1..], key) {
      i := LastAccess(h[1..], key);
      assert h[1..][i + 1..] == h[i + 2..];
      i := i + 1;
    } else {
      i := 0;
    }
  }
}
