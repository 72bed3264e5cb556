/**
 * Which addresses a list of targets stands for, said octet by octet and bit by bit (README of iprange,
 * section 3.1 of RFC 4632).
 */
module IpMeaning {
  import opened IpRange
  import opened Cidr
  import opened IpGrammar

  // ---- Terms and addresses ----

  /** A number matches itself, a star everything; a span that runs backwards goes on from 255 to 0. */
  predicate TermMatches(t: Term, x: octet) {
    match t
    case Single(n) => x == n
    case Any => true
    case Span(lo, hi) => if lo <= hi then lo <= x <= hi else x >= lo || x <= hi
  }

  predicate AddressMatches(a: Address, ip: IP) {
    TermMatches(a.a, ip[0]) && TermMatches(a.b, ip[1]) && TermMatches(a.c, ip[2]) && TermMatches(a.d, ip[3])
  }

  lemma OctetMeaning(t: Term, x: octet)
    ensures var r := DenoteTerm(t); TermMatches(t, x) <==> Octet(x - r.min) <= Octet(r.max - r.min)
  {
  }

  lemma AddressMeaning(a: Address, ip: IP)
    ensures Contains(DenoteAddress(a), ip) <==> AddressMatches(a, ip)
  {
    OctetMeaning(a.a, ip[0]);
    OctetMeaning(a.b, ip[1]);
    OctetMeaning(a.c, ip[2]);
    OctetMeaning(a.d, ip[3]);
  }

  // ---- Blocks ----

  /** The 32-bit numbers of the two addresses agree in their first `p` bits. */
  predicate SharesFirstBits(a: IP, b: IP, p: nat)
    requires p <= 32
  {
    Pow2IsPositive(32 - p);
    Value(a) / Pow2(32 - p) == Value(b) / Pow2(32 - p)
  }

  /** The size of octet `q` and all after it. */
  function Weight(q: nat): int
    requires q < 4
  {
    if q == 0 then 0x100_0000 else if q == 1 then 0x1_0000 else if q == 2 then 0x100 else 1
  }

  /** The octets before octet `q`, as a number. */
  function Above(addr: IP, q: nat): int
    requires q < 4
  {
    if q == 0 then 0 else if q == 1 then addr[0] else if q == 2 then addr[0] * 256 + addr[1]
    else (addr[0] * 256 + addr[1]) * 256 + addr[2]
  }

  lemma LowValue(addr: IP, q: nat, base: int)
    requires q < 4 && 0 <= base < 256
    ensures Value(Low(addr, q, base)) == (Above(addr, q) * 256 + base) * Weight(q)
  {
  }

  /** The lower end of a block is a multiple of its size. */
  lemma LowIsMultiple(addr: IP, q: nat, k: int, m: int, size: int) returns (h: int)
    requires q < 4 && k >= 1 && k * m == 256 && size == k * Weight(q) && 0 <= Base(addr[q], k) < 256
    ensures Value(Low(addr, q, Base(addr[q], k))) == h * size
  {
    LowValue(addr, q, Base(addr[q], k));
    BaseIsMultiple(addr[q], k);
    h := Scaled(Value(Low(addr, q, Base(addr[q], k))), Above(addr, q), m, addr[q] / k, k, Weight(q), size);
  }

  lemma BlockParts(p: nat)
    requires p <= 32
    ensures BlockSize(p) >= 1 && BlockSize(p) * Pow2(Ones(p, SplitOctet(p))) == 256
    ensures Pow2(32 - p) == BlockSize(p) * Weight(SplitOctet(p))
  {
    OctetOfBlocks(8 - Ones(p, SplitOctet(p)));
    SpanIsPow2(p);
  }

  lemma Scaled(v: int, above: int, m: int, j: int, k: int, w: int, size: int) returns (h: int)
    requires v == (above * 256 + j * k) * w && k * m == 256 && size == k * w
    ensures v == h * size
  {
    Multiple(above, m, j, k, w);
    h := above * m + j;
  }

  lemma BaseIsMultiple(b: int, k: int)
    requires k > 0
    ensures Base(b, k) == (b / k) * k
  {
  }

  lemma Multiple(above: int, m: int, j: int, k: int, w: int)
    requires k * m == 256
    ensures (above * 256 + j * k) * w == (above * m + j) * (k * w)
  {
    assert above * 256 == (above * m) * k;
    assert above * 256 + j * k == (above * m + j) * k;
  }

  /** Between the ends of a block lie exactly the addresses that share its first bits. */
  lemma BlockBounds(addr: IP, p: nat, ip: IP)
    requires p <= 32
    ensures SharesFirstBits(addr, ip, p) <==> Value(Block32(addr, p).min) <= Value(ip) <= Value(Block32(addr, p).max)
  {
    var q, k, size := SplitOctet(p), BlockSize(p), Pow2(32 - p);
    Block32Shape(addr, p);
    Pow2IsPositive(32 - p);
    BlockParts(p);
    var h := LowIsMultiple(addr, q, k, Pow2(Ones(p, q)), size);
    HighValue(addr, q, Base(addr[q], k), k);
    SpanIsPow2(p);
    SameBlock(addr[q], addr[q], k);
    Between(addr, q, Base(addr[q], k), k, addr);
    ModUnique(Value(addr), h, Value(addr) - h * size, size);
    SameBlock(Value(addr), Value(ip), size);
  }

  lemma ContainedIsBetween(r: AddressRange, q: nat, ip: IP)
    requires var w := Minus(r.max, r.min);
      q < 4 && (forall i :: 0 <= i < q ==> w[i] == 0) && (forall i :: q < i < 4 ==> w[i] == 255 && r.min[i] == 0) &&
      r.min[q] + w[q] < 256 && Below(Minus(ip, r.min), w)
    ensures Value(r.min) <= Value(ip) <= Value(r.max)
  {
    var w := Minus(r.max, r.min);
    RankIsDistance(r.min, w, q, ip);
    RankIsBounded(Minus(ip, r.min), w);
    RankIsDistance(r.min, w, q, r.max);
  }

  /** The odometer's block, wheel by wheel, is the interval between its ends. */
  lemma BlockContains(addr: IP, p: nat, ip: IP)
    requires p <= 32
    ensures Contains(Block32(addr, p), ip) <==> Value(Block32(addr, p).min) <= Value(ip) <= Value(Block32(addr, p).max)
  {
    var r := Block32(addr, p);
    if Contains(r, ip) {
      BlockCounts(addr, p);
      ContainedIsBetween(r, SplitOctet(p), ip);
    }
    if Value(r.min) <= Value(ip) <= Value(r.max) {
      BetweenIsContained(addr, p, ip);
    }
  }

  lemma BetweenIsContained(addr: IP, p: nat, ip: IP)
    requires p <= 32 && Value(Block32(addr, p).min) <= Value(ip) <= Value(Block32(addr, p).max)
    ensures Contains(Block32(addr, p), ip)
  {
    var q, k := SplitOctet(p), BlockSize(p);
    Block32Shape(addr, p);
    BlockWheels(addr, q, Base(addr[q], k), k);
    Between(addr, q, Base(addr[q], k), k, ip);
    var low := Low(addr, q, Base(addr[q], k));
    WithinWheels(low, Minus(High(addr, q, Base(addr[q], k), k), low), q, ip, k);
  }

  lemma WithinWheels(low: IP, w: IP, q: nat, ip: IP, k: int)
    requires q < 4 && w[q] == k - 1 && forall i :: q < i < 4 ==> w[i] == 255
    requires (forall i :: 0 <= i < q ==> ip[i] == low[i]) && low[q] <= ip[q] < low[q] + k
    ensures Below(Minus(ip, low), w)
  {
    forall i | 0 <= i < 4 ensures Octet(ip[i] - low[i]) <= w[i] { WheelFits(ip[i], low[i], w[i]); }
  }

  lemma WheelFits(x: octet, low: octet, w: int)
    requires w == 255 || 0 <= x - low <= w
    ensures Octet(x - low) <= w
  {
  }

  // ---- Targets and lists ----

  /** The address a block is taken around. */
  function LowEnd(t: Term): octet { if t.Single? then t.n else if t.Any? then 0 else t.lo }

  function Around(a: Address): IP { [LowEnd(a.a), LowEnd(a.b), LowEnd(a.c), LowEnd(a.d)] }

  /** A plain target matches octet by octet; a block matches the addresses with the same first bits. */
  predicate Matches(t: Target, ip: IP)
    requires TargetOk(t)
  {
    if t.Plain? then AddressMatches(t.addr, ip) else SharesFirstBits(Around(t.addr), ip, t.bits)
  }

  lemma TargetMeaning(t: Target, ip: IP)
    requires TargetOk(t)
    ensures Contains(DenoteTarget(t), ip) <==> Matches(t, ip)
  {
    if t.Plain? {
      AddressMeaning(t.addr, ip);
    } else {
      assert DenoteAddress(t.addr).min == Around(t.addr);
      BlockBounds(Around(t.addr), t.bits, ip);
      BlockContains(Around(t.addr), t.bits, ip);
    }
  }

  /** The targets of a list, from left to right. */
  function Targets(r: Result): (ts: seq<Target>)
    ensures ts != []
  {
    match r
    case One(t) => [t]
    case More(r, _, t) => Targets(r) + [t]
  }

  /** The ranges of a list are those of its targets, in their order. */
  lemma {:induction false} ListMeaning(r: Result, i: nat, ip: IP)
    requires Ok(r) && i < |Targets(r)|
    ensures |Denote(r)| == |Targets(r)| && TargetOk(Targets(r)[i])
    ensures Contains(Denote(r)[i], ip) <==> Matches(Targets(r)[i], ip)
    decreases r
  {
    TargetMeaning(r.t, ip);
    if r.More? {
      ListMeaning(r.r, 0, ip);
      if i < |Targets(r.r)| { ListMeaning(r.r, i, ip); }
    }
  }

  /** The ranges stand, one by one, for the targets. */
  ghost predicate StandFor(l: seq<AddressRange>, ts: seq<Target>) {
    |l| == |ts| && forall i :: 0 <= i < |l| ==> TargetOk(ts[i]) && StandsFor(l[i], ts[i])
  }

  ghost predicate StandsFor(r: AddressRange, t: Target)
    requires TargetOk(t)
  {
    forall ip :: Contains(r, ip) <==> Matches(t, ip)
  }

  ghost predicate IsFirst(r: AddressRange, list: Result) {
    TargetOk(Targets(list)[0]) && StandsFor(r, Targets(list)[0])
  }

  lemma DenotedStandFor(r: Result)
    requires Ok(r)
    ensures StandFor(Denote(r), Targets(r))
  {
    ListMeaning(r, 0, [0, 0, 0, 0]);
    forall i, ip | 0 <= i < |Denote(r)|
      ensures TargetOk(Targets(r)[i]) && (Contains(Denote(r)[i], ip) <==> Matches(Targets(r)[i], ip))
    {
      ListMeaning(r, i, ip);
    }
    forall i | 0 <= i < |Denote(r)| ensures TargetOk(Targets(r)[i]) { ListMeaning(r, i, [0, 0, 0, 0]); }
  }

  /** So the union that expanding a parsed list emits is the union of its targets. */
  lemma UnionMeaning(l: seq<AddressRange>, ts: seq<Target>, ip: IP)
    requires StandFor(l, ts)
    ensures (exists i :: 0 <= i < |l| && Contains(l[i], ip)) <==>
            (exists i :: 0 <= i < |ts| && TargetOk(ts[i]) && Matches(ts[i], ip))
  {
    if i :| 0 <= i < |l| && Contains(l[i], ip) { assert TargetOk(ts[i]) && Matches(ts[i], ip); }
    if i :| 0 <= i < |ts| && TargetOk(ts[i]) && Matches(ts[i], ip) { assert Contains(l[i], ip); }
  }

  /** The first target is the one the text begins with. */
  lemma {:induction false} FirstTargetIsFirst(r: Result)
    ensures YieldTarget(Targets(r)[0]) <= Yield(r)
  {
    if r.More? { FirstTargetIsFirst(r.r); }
  }

  /** Comparing addresses as numbers is comparing them octet by octet from the left. */
  lemma OrderIsOctetwise(a: IP, b: IP)
    ensures Value(a) < Value(b) <==> exists i :: 0 <= i < 4 && a[..i] == b[..i] && a[i] < b[i]
  {
    if i :| 0 <= i < 4 && a[i] != b[i] && forall j :: 0 <= j < i ==> a[j] == b[j] {
      DiffersAt(a, b, i);
      assert a[..i] == b[..i];
      forall j | i < j < 4 ensures a[..j] != b[..j] { assert a[..j][i] == a[i] && b[..j][i] == b[i]; }
    } else {
      AllEqual(a, b);
    }
  }

  lemma AllEqual(a: IP, b: IP)
    requires forall i :: 0 <= i < 4 && a[i] != b[i] ==> exists j :: 0 <= j < i && a[j] != b[j]
    ensures a == b
  {
    assert a[0] == b[0];
    assert a[1] == b[1];
    assert a[2] == b[2];
    assert a[3] == b[3];
  }
}
