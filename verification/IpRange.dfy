/** iprange/funcs.go and iprange/sortip.go: expanding octet ranges, and the CIDR arithmetic of iprange/y.go. */
module IpRange {
  import opened Sorting

  /** net.IP of four bytes */
  type IP = s: seq<int> | |s| == 4 && forall i :: 0 <= i < 4 ==> 0 <= s[i] < 256
    witness [0, 0, 0, 0]

  datatype AddressRange = AddressRange(min: IP, max: IP)

  /** binary.BigEndian.Uint32 */
  function Value(ip: IP): int {
    ((ip[0] * 256 + ip[1]) * 256 + ip[2]) * 256 + ip[3]
  }

  function Octet(x: int): int { x % 256 }

  /** upper[i] - lower[i] and lower[i] + mask[i] on bytes, octet by octet */
  function Minus(a: IP, b: IP): IP {
    [Octet(a[0] - b[0]), Octet(a[1] - b[1]), Octet(a[2] - b[2]), Octet(a[3] - b[3])]
  }

  function Plus(a: IP, b: IP): IP {
    [Octet(a[0] + b[0]), Octet(a[1] + b[1]), Octet(a[2] + b[2]), Octet(a[3] + b[3])]
  }

  predicate Below(m: IP, r: IP) {
    m[0] <= r[0] && m[1] <= r[1] && m[2] <= r[2] && m[3] <= r[3]
  }

  /** The addresses a range stands for: octet by octet, the distance from the lower octet (modulo 256)
      is at most the distance of the upper octet. */
  predicate Contains(r: AddressRange, ip: IP) {
    Below(Minus(ip, r.min), Minus(r.max, r.min))
  }

  // ---- The odometer ----

  /** The position of `m` in the order in which the odometer with wheels 0..r[i] visits the masks. */
  function Rank(m: IP, r: IP): int {
    ((m[0] * (r[1] + 1) + m[1]) * (r[2] + 1) + m[2]) * (r[3] + 1) + m[3]
  }

  /** How many masks the odometer visits. */
  function Size(r: IP): int {
    (r[0] + 1) * (r[1] + 1) * (r[2] + 1) * (r[3] + 1)
  }

  lemma MulMonotone(a: int, b: int, c: int)
    requires a <= b && c >= 0
    ensures a * c <= b * c
  {
  }

  /** Two-digit numbers with a variable radix are unique. */
  lemma DigitsAreUnique(a: int, b: int, a': int, b': int, radix: int)
    requires 0 <= b < radix && 0 <= b' < radix && a * radix + b == a' * radix + b'
    ensures a == a' && b == b'
  {
    if a < a' {
      MulMonotone(a + 1, a', radix);
    } else if a' < a {
      MulMonotone(a' + 1, a, radix);
    }
  }

  lemma RankIsInjective(m: IP, n: IP, r: IP)
    requires Below(m, r) && Below(n, r) && Rank(m, r) == Rank(n, r)
    ensures m == n
  {
    var a, a' := m[0] * (r[1] + 1) + m[1], n[0] * (r[1] + 1) + n[1];
    var b, b' := a * (r[2] + 1) + m[2], a' * (r[2] + 1) + n[2];
    DigitsAreUnique(b, m[3], b', n[3], r[3] + 1);
    DigitsAreUnique(a, m[2], a', n[2], r[2] + 1);
    DigitsAreUnique(m[0], m[1], n[0], n[1], r[1] + 1);
  }

  lemma RankIsBounded(m: IP, r: IP)
    requires Below(m, r)
    ensures 0 <= Rank(m, r) <= Rank(r, r) == Size(r) - 1
  {
    MulMonotone(m[0], r[0], r[1] + 1);
    var a, b := m[0] * (r[1] + 1) + m[1], r[0] * (r[1] + 1) + r[1];
    MulMonotone(a, b, r[2] + 1);
    MulMonotone(0, a, r[2] + 1);
    var c, d := a * (r[2] + 1) + m[2], b * (r[2] + 1) + r[2];
    MulMonotone(c, d, r[3] + 1);
    MulMonotone(0, c, r[3] + 1);
    assert b + 1 == (r[0] + 1) * (r[1] + 1);
    assert d + 1 == (b + 1) * (r[2] + 1);
    assert Rank(r, r) + 1 == (d + 1) * (r[3] + 1);
  }

  lemma ValueIsInjective(a: IP, b: IP)
    requires Value(a) == Value(b)
    ensures a == b
  {
    var a1, b1 := a[0] * 256 + a[1], b[0] * 256 + b[1];
    var a2, b2 := a1 * 256 + a[2], b1 * 256 + b[2];
    DigitsAreUnique(a2, a[3], b2, b[3], 256);
    DigitsAreUnique(a1, a[2], b1, b[2], 256);
    DigitsAreUnique(a[0], a[1], b[0], b[1], 256);
  }

  /** A carry at wheel `i`: the wheels after it were full and restart at 0. */
  lemma CarryIsSuccessor(m: IP, n: IP, r: IP, i: nat)
    requires Below(m, r) && i < 4 && n[i] == m[i] + 1
    requires forall j :: 0 <= j < i ==> n[j] == m[j]
    requires forall j :: i < j < 4 ==> m[j] == r[j] && n[j] == 0
    ensures Rank(n, r) == Rank(m, r) + 1
  {
    var a, a' := m[0] * (r[1] + 1) + m[1], n[0] * (r[1] + 1) + n[1];
    var b, b' := a * (r[2] + 1) + m[2], a' * (r[2] + 1) + n[2];
    if i == 0 { NextDigit(m[0], r[1]); }
    if i <= 1 { NextDigit(a, r[2]); }
    if i <= 2 { NextDigit(b, r[3]); }
  }

  lemma NextDigit(high: int, radix: int)
    ensures (high + 1) * (radix + 1) == high * (radix + 1) + radix + 1
  {
  }

  lemma SelfMod(n: int)
    requires n > 0
    ensures n % n == 0
  {
  }

  /** The inner loop of streamRange: one turn of the odometer, in place. */
  method Turn(mask: array<int>, rangeMask: IP)
    requires mask.Length == 4 && forall j :: 0 <= j < 4 ==> 0 <= mask[j] <= rangeMask[j]
    requires mask[..] != rangeMask
    modifies mask
    ensures forall j :: 0 <= j < 4 ==> 0 <= mask[j] <= rangeMask[j]
    ensures Rank(mask[..], rangeMask) == old(Rank(mask[..], rangeMask)) + 1
  {
    ghost var before := mask[..];
    var i := 3;
    while i >= 0
      invariant -1 <= i <= 3
      invariant forall j :: 0 <= j <= i ==> mask[j] == before[j]
      invariant forall j :: i < j < 4 ==> before[j] == rangeMask[j] && mask[j] == 0
    {
      if rangeMask[i] > 0 {
        if mask[i] < rangeMask[i] {
          mask[i] := mask[i] + 1;
          CarryIsSuccessor(before, mask[..], rangeMask, i);
          return;
        } else {
          SelfMod(rangeMask[i]);
          mask[i] := mask[i] % rangeMask[i];
        }
      }
      i := i - 1;
    }
    assert false;
  }

  /** `out` is what the odometer emits: the offset of the k-th address from `lower` has rank k. */
  ghost predicate Emitted(lower: IP, rangeMask: IP, out: seq<IP>) {
    forall k :: 0 <= k < |out| ==>
      Below(Minus(out[k], lower), rangeMask) && Rank(Minus(out[k], lower), rangeMask) == k
  }

  lemma MinusPlus(lower: IP, m: IP)
    ensures Minus(Plus(lower, m), lower) == m
  {
  }

  lemma MinusIsInjective(a: IP, b: IP, lower: IP)
    requires Minus(a, lower) == Minus(b, lower)
    ensures a == b
  {
  }

  /** The odometer visits every address of the range exactly once and nothing else. */
  lemma EmittedIsRange(r: AddressRange, out: seq<IP>)
    requires var w := Minus(r.max, r.min); Emitted(r.min, w, out) && |out| == Size(w)
    ensures forall ip :: ip in out <==> Contains(r, ip)
    ensures forall i, j :: 0 <= i < j < |out| ==> out[i] != out[j]
  {
    var w := Minus(r.max, r.min);
    forall ip | Contains(r, ip) ensures ip in out {
      RankIsBounded(Minus(ip, r.min), w);
      var k := Rank(Minus(ip, r.min), w);
      RankIsInjective(Minus(ip, r.min), Minus(out[k], r.min), w);
      MinusIsInjective(ip, out[k], r.min);
    }
  }

  /** streamRange, with the channel as the sequence of its messages. */
  method StreamRange(lower: IP, upper: IP) returns (out: seq<IP>)
    ensures Emitted(lower, Minus(upper, lower), out) && |out| == Size(Minus(upper, lower))
  {
    var rangeMask := Minus(upper, lower);
    var mask := new int[4](_ => 0);
    out := [];
    assert Rank(mask[..], rangeMask) == 0;
    while true
      invariant forall j :: 0 <= j < 4 ==> 0 <= mask[j] <= rangeMask[j]
      invariant Rank(mask[..], rangeMask) == |out| && Emitted(lower, rangeMask, out)
      decreases Size(rangeMask) - |out|
    {
      RankIsBounded(mask[..], rangeMask);
      MinusPlus(lower, mask[..]);
      out := out + [Plus(lower, mask[..])];
      if mask[..] == rangeMask {
        break;
      }
      Turn(mask, rangeMask);
    }
  }

  /** AddressRange.Expand */
  method Expand(r: AddressRange) returns (ips: seq<IP>)
    ensures Emitted(r.min, Minus(r.max, r.min), ips) && |ips| == Size(Minus(r.max, r.min))
    ensures forall ip :: ip in ips <==> Contains(r, ip)
    ensures |ips| > 0
  {
    ips := StreamRange(r.min, r.max);
    EmittedIsRange(r, ips);
    RankIsBounded(Minus(r.max, r.min), Minus(r.max, r.min));
  }

  /** asc.Less, made reflexive */
  predicate AtMost(a: IP, b: IP) { Value(a) <= Value(b) }

  lemma AtMostIsTotal()
    ensures TotalOrder(AtMost)
  {
    forall a, b | AtMost(a, b) && AtMost(b, a) ensures a == b { ValueIsInjective(a, b); }
  }

  ghost predicate Increasing(s: seq<IP>) {
    forall i, j :: 0 <= i < j < |s| ==> Value(s[i]) < Value(s[j])
  }

  /** The loop of normalize: drops repetitions from a sorted list. */
  method Dedup(sorted: seq<IP>) returns (dst: seq<IP>)
    requires sorted != [] && Sorted(AtMost, sorted)
    ensures Increasing(dst) && forall ip :: ip in dst <==> ip in sorted
  {
    dst := [sorted[0]];
    for i := 0 to |sorted|
      invariant dst != [] && Increasing(dst) && dst[|dst| - 1] == sorted[if i == 0 then 0 else i - 1]
      invariant forall ip :: ip in dst ==> ip in sorted
      invariant forall j :: 0 <= j < i ==> sorted[j] in dst
    {
      if dst[|dst| - 1] != sorted[i] {
        StrictlyAbove(dst[|dst| - 1], sorted[i]);
        dst := dst + [sorted[i]];
      }
    }
  }

  lemma StrictlyAbove(a: IP, b: IP)
    requires AtMost(a, b) && a != b
    ensures Value(a) < Value(b)
  {
  }

  /** normalize: sort, then drop repetitions. An empty `src` makes the original index out of range. */
  method Normalize(src: seq<IP>) returns (dst: seq<IP>)
    requires src != []
    ensures Increasing(dst) && forall ip :: ip in dst <==> ip in src
  {
    AtMostIsTotal();
    SortSorts(AtMost, src);
    var sorted := Sort(AtMost, src);
    dst := Dedup(sorted);
    forall ip ensures ip in sorted <==> ip in src {
      assert ip in sorted <==> ip in multiset(sorted);
    }
  }

  /** AddressRangeList.Expand: the strictly increasing list of all addresses of all ranges. */
  method ExpandList(l: seq<AddressRange>) returns (ips: seq<IP>)
    requires l != []
    ensures Increasing(ips)
    ensures forall ip :: ip in ips <==> exists i :: 0 <= i < |l| && Contains(l[i], ip)
  {
    var res := [];
    for i := 0 to |l|
      invariant i > 0 ==> res != []
      invariant forall ip :: ip in res <==> exists j :: 0 <= j < i && Contains(l[j], ip)
    {
      var part := Expand(l[i]);
      res := res + part;
    }
    ips := Normalize(res);
  }
}
