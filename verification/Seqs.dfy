/** Facts about slices and concatenation, stated once so that proofs can call them. */
module Seqs {
  lemma Cut<T>(s: seq<T>, n: nat)
    requires n <= |s|
    ensures s[..n] + s[n..] == s
  {
  }

  lemma Assoc<T>(a: seq<T>, b: seq<T>, c: seq<T>)
    ensures (a + b) + c == a + (b + c)
  {
  }

  lemma DropDrop<T>(s: seq<T>, n: nat, m: nat)
    requires n + m <= |s|
    ensures s[n..][m..] == s[n + m..]
  {
  }

  lemma TakeTake<T>(s: seq<T>, n: nat, m: nat)
    requires m <= n <= |s|
    ensures s[..n][..m] == s[..m]
  {
  }

  lemma TakeDrop<T>(s: seq<T>, n: nat, m: nat)
    requires n <= m <= |s|
    ensures s[..m][n..] == s[n..][..m - n]
  {
  }

  lemma All<T>(s: seq<T>)
    ensures s[..|s|] == s && s[0..] == s && s + [] == s && [] + s == s
  {
  }

  lemma Two<T>(a: T, b: T, rest: seq<T>)
    ensures [a, b] + rest == [a] + ([b] + rest)
  {
  }

  lemma Three<T>(a: T, b: T, c: T, rest: seq<T>)
    ensures [a, b, c] + rest == [a] + ([b] + ([c] + rest))
  {
  }

  lemma Push2<T>(s: seq<T>, a: T, b: T)
    ensures (s + [a]) + [b] == s + [a, b]
  {
  }

  lemma OneTwo<T>(a: T, b: T, c: T)
    ensures [a] + [b, c] == [a, b, c]
  {
  }

  lemma Head<T>(s: seq<T>)
    requires s != []
    ensures [s[0]] + s[1..] == s
  {
  }
}
