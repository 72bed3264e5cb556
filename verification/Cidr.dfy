/** The CIDR arithmetic of production 5 in iprange/y.go (section 3.1 of RFC 4632). */
module Cidr {
  import opened IpRange

  function Pow2(n: nat): nat { if n == 0 then 1 else 2 * Pow2(n - 1) }

  /** How many of the first `p` bits lie in octet `i`. */
  function Ones(p: nat, i: nat): (n: nat)
    ensures n <= 8
  {
    if p <= 8 * i then 0 else if p - 8 * i >= 8 then 8 else p - 8 * i
  }

  /** A byte with `n` leading ones, as net.CIDRMask builds it: ^byte(0xff >> n) */
  function MaskOctet(n: nat): (b: int)
    requires n <= 8
    ensures 0 <= b < 256
  {
    PowOctet(n);
    255 - 255 / Pow2(n)
  }

  lemma PowOctet(n: nat)
    requires n <= 8
    ensures 1 <= Pow2(n) <= 256 && 1 <= Pow2(8 - n) <= 256
    ensures 255 / Pow2(n) == Pow2(8 - n) - 1
  {
    assert Pow2(0) == 1 && Pow2(1) == 2 && Pow2(2) == 4 && Pow2(3) == 8 && Pow2(4) == 16;
    assert Pow2(5) == 32 && Pow2(6) == 64 && Pow2(7) == 128 && Pow2(8) == 256;
  }

  /** net.CIDRMask(p, 32) */
  function CIDRMask(p: nat): IP {
    [MaskOctet(Ones(p, 0)), MaskOctet(Ones(p, 1)), MaskOctet(Ones(p, 2)), MaskOctet(Ones(p, 3))]
  }

  /** Bitwise and. */
  function BitAnd(a: nat, b: nat): (r: nat)
    ensures r <= a
  {
    if a == 0 || b == 0 then 0 else (a % 2) * (b % 2) + 2 * BitAnd(a / 2, b / 2)
  }

  lemma ModUnique(x: int, q: int, r: int, m: int)
    requires m > 0 && x == q * m + r && 0 <= r < m
    ensures x % m == r && x / m == q
  {
    DigitsAreUnique(x / m, x % m, q, r, m);
  }

  lemma ModDouble(x: nat, m: nat)
    requires m > 0
    ensures x % (2 * m) == 2 * (x / 2 % m) + x % 2
  {
    var h := x / 2;
    ModUnique(x, h / m, 2 * (h % m) + x % 2, 2 * m);
  }

  /** `ones` ones followed by `zeros` zeros. */
  function Block(ones: nat, zeros: nat): nat {
    if zeros > 0 then 2 * Block(ones, zeros - 1)
    else if ones > 0 then 2 * Block(ones - 1, 0) + 1
    else 0
  }

  /** And-ing with a block of leading ones clears the low bits. */
  lemma {:induction false} BlockClears(b: nat, ones: nat, zeros: nat)
    requires b < Pow2(ones + zeros)
    ensures Pow2(zeros) > 0 && BitAnd(b, Block(ones, zeros)) == b - b % Pow2(zeros)
    decreases zeros + ones
  {
    Pow2IsPositive(zeros);
    if zeros > 0 {
      BlockClears(b / 2, ones, zeros - 1);
      ModDouble(b, Pow2(zeros - 1));
      HalvesAgree(b, Block(ones, zeros - 1));
    } else if ones > 0 {
      BlockClears(b / 2, ones - 1, 0);
    }
  }

  /** Shifting the mask by one bit moves the conjunction one bit up. */
  lemma HalvesAgree(b: nat, mask: nat)
    ensures BitAnd(b, 2 * mask) == 2 * BitAnd(b / 2, mask)
  {
    if b == 0 || mask == 0 {
      assert b / 2 == 0 || mask == 0;
    }
  }

  lemma Pow2IsPositive(n: nat)
    ensures Pow2(n) > 0
  {
  }

  lemma MaskIsBlock(n: nat)
    requires n <= 8
    ensures MaskOctet(n) == Block(n, 8 - n)
  {
    BlockValue(n, 8 - n);
    PowOctet(n);
    assert Pow2(8) == 256;
  }

  lemma {:induction false} BlockValue(ones: nat, zeros: nat)
    ensures Block(ones, zeros) == Pow2(ones + zeros) - Pow2(zeros)
    decreases ones + zeros
  {
    if zeros > 0 {
      BlockValue(ones, zeros - 1);
    } else if ones > 0 {
      BlockValue(ones - 1, 0);
    }
  }

  /** IP.Mask */
  function Mask(ip: IP, mask: IP): IP {
    [BitAnd(ip[0], mask[0]), BitAnd(ip[1], mask[1]), BitAnd(ip[2], mask[2]), BitAnd(ip[3], mask[3])]
  }

  /** binary.BigEndian.PutUint32 */
  function FromValue(v: int): IP
    requires 0 <= v < 0x1_0000_0000
  {
    [v / 256 / 256 / 256, v / 256 / 256 % 256, v / 256 % 256, v % 256]
  }

  lemma FromValueUndoesValue(ip: IP)
    ensures 0 <= Value(ip) < 0x1_0000_0000 && FromValue(Value(ip)) == ip
  {
    var b := ip[0] * 256 + ip[1];
    var c := b * 256 + ip[2];
    ModUnique(c * 256 + ip[3], c, ip[3], 256);
    ModUnique(c, b, ip[2], 256);
    ModUnique(b, ip[0], ip[1], 256);
  }

  /** The action of production 5, for a prefix the mask exists for; the sum wraps like uint32. */
  function Block32(addr: IP, p: nat): AddressRange
    requires p <= 32
  {
    var mask := CIDRMask(p);
    var min := Mask(addr, mask);
    AddressRange(min, FromValue(MaxInt(min, mask)))
  }

  /** min + 0xffffffff - mask on uint32 */
  function MaxInt(min: IP, mask: IP): (v: int)
    ensures 0 <= v < 0x1_0000_0000
  {
    (Value(min) + 0xffff_ffff - Value(mask)) % 0x1_0000_0000
  }

  /** The octet in which the prefix ends, and the size of the block within that octet. */
  function SplitOctet(p: nat): nat
    requires p <= 32
  {
    if p == 32 then 3 else p / 8
  }

  function BlockSize(p: nat): int
    requires p <= 32
  {
    Pow2(8 - Ones(p, SplitOctet(p)))
  }

  lemma MaskedOctet(b: int, p: nat, i: nat)
    requires 0 <= b < 256 && p <= 32 && i < 4
    ensures 1 <= BlockSize(p) <= 256
    ensures BitAnd(b, MaskOctet(Ones(p, i))) ==
            if i < SplitOctet(p) then b else if i == SplitOctet(p) then Base(b, BlockSize(p)) else 0
    ensures MaskOctet(Ones(p, i)) ==
            if i < SplitOctet(p) then 255 else if i == SplitOctet(p) then 256 - BlockSize(p) else 0
  {
    var n := Ones(p, i);
    assert Pow2(0) == 1 && Pow2(8) == 256;
    PowOctet(n);
    PowOctet(Ones(p, SplitOctet(p)));
    MaskIsBlock(n);
    BlockClears(b, n, 8 - n);
  }

  /** Lower and upper end of a block of `addr`: the octets before `q` are kept, octet `q` spans the `k`
      values from `base`, the octets after it are free. */
  function Low(addr: IP, q: nat, base: int): IP
    requires q < 4 && 0 <= base < 256
  {
    [if 0 < q then addr[0] else base, if 1 < q then addr[1] else if q == 1 then base else 0,
     if 2 < q then addr[2] else if q == 2 then base else 0, if q == 3 then base else 0]
  }

  function High(addr: IP, q: nat, base: int, k: int): IP
    requires q < 4 && 0 <= base && 1 <= k && base + k <= 256
  {
    var top := base + k - 1;
    [if 0 < q then addr[0] else top, if 1 < q then addr[1] else if q == 1 then top else 255,
     if 2 < q then addr[2] else if q == 2 then top else 255, if q == 3 then top else 255]
  }

  /** The start of the block of size `k` that `b` lies in. */
  function Base(b: int, k: int): int
    requires k > 0
  {
    b - b % k
  }

  lemma OctetOfBlocks(n: nat)
    requires n <= 8
    ensures Pow2(n) > 0 && Pow2(8 - n) * Pow2(n) == 256
  {
  }

  lemma BlockFitsIn(b: int, k: int, blocks: int)
    requires 0 <= b < blocks * k && k > 0
    ensures 0 <= Base(b, k) && Base(b, k) + k <= blocks * k
  {
    var h := b / k;
    if h >= blocks { MulMonotone(blocks, h, k); }
    MulMonotone(h + 1, blocks, k);
  }

  /** The wrapping expression min + 0xffffffff - mask never wraps, and gives the upper end of the block. */
  lemma Block32Shape(addr: IP, p: nat)
    requires p <= 32
    ensures var q, k := SplitOctet(p), BlockSize(p);
            k >= 1 && 0 <= Base(addr[q], k) && Base(addr[q], k) + k <= 256 &&
            Block32(addr, p) == AddressRange(Low(addr, q, Base(addr[q], k)), High(addr, q, Base(addr[q], k), k))
  {
    var q, k := SplitOctet(p), BlockSize(p);
    OctetOfBlocks(8 - Ones(p, q));
    BlockFitsIn(addr[q], k, Pow2(Ones(p, q)));
    MinIsLow(addr, p);
    MaskValue(p);
    HighValue(addr, q, Base(addr[q], k), k);
    WrapIsExact(Mask(addr, CIDRMask(p)), CIDRMask(p), High(addr, q, Base(addr[q], k), k));
    FromValueUndoesValue(High(addr, q, Base(addr[q], k), k));
  }

  lemma WrapIsExact(min: IP, mask: IP, max: IP)
    requires Value(min) + 0xffff_ffff - Value(mask) == Value(max)
    ensures MaxInt(min, mask) == Value(max)
  {
  }

  lemma MinIsLow(addr: IP, p: nat)
    requires p <= 32 && BlockSize(p) >= 1 && 0 <= Base(addr[SplitOctet(p)], BlockSize(p)) < 256
    ensures Mask(addr, CIDRMask(p)) == Low(addr, SplitOctet(p), Base(addr[SplitOctet(p)], BlockSize(p)))
  {
    MaskedOctet(addr[0], p, 0);
    MaskedOctet(addr[1], p, 1);
    MaskedOctet(addr[2], p, 2);
    MaskedOctet(addr[3], p, 3);
  }

  /** The addresses after the first one in a block with `k` values in octet `q`. */
  function Span(q: nat, k: int): int
    requires q < 4
  {
    if q == 0 then k * 0x100_0000 - 1 else if q == 1 then k * 0x1_0000 - 1 else if q == 2 then k * 0x100 - 1 else k - 1
  }

  lemma MaskValue(p: nat)
    requires p <= 32
    ensures Value(CIDRMask(p)) == 0xffff_ffff - Span(SplitOctet(p), BlockSize(p))
  {
    MaskedOctet(0, p, 0);
    MaskedOctet(0, p, 1);
    MaskedOctet(0, p, 2);
    MaskedOctet(0, p, 3);
  }

  lemma HighValue(addr: IP, q: nat, base: int, k: int)
    requires q < 4 && 0 <= base && 1 <= k && base + k <= 256
    ensures Value(High(addr, q, base, k)) == Value(Low(addr, q, base)) + Span(q, k)
  {
  }

  // ---- What the block is ----

  /** `a` and `b` agree in their first `p` bits: octet by octet, in the leading bits that belong to the prefix. */
  ghost predicate SharesPrefix(a: IP, b: IP, p: nat)
    requires p <= 32
  {
    forall i :: 0 <= i < 4 ==> SharesBits(a[i], b[i], Ones(p, i))
  }

  ghost predicate SharesBits(a: int, b: int, n: nat)
    requires n <= 8
  {
    Pow2IsPositive(8 - n);
    a / Pow2(8 - n) == b / Pow2(8 - n)
  }

  lemma SameBlock(a: int, b: int, k: int)
    requires k > 0
    ensures a / k == b / k <==> Base(a, k) <= b < Base(a, k) + k
  {
    var h, g := a / k, b / k;
    if h < g { MulMonotone(h + 1, g, k); }
    if g < h { MulMonotone(g + 1, h, k); }
  }

  lemma Between(addr: IP, q: nat, base: int, k: int, ip: IP)
    requires q < 4 && 0 <= base && 1 <= k && base + k <= 256
    ensures Value(Low(addr, q, base)) <= Value(ip) <= Value(High(addr, q, base, k)) <==>
            (forall i :: 0 <= i < q ==> ip[i] == addr[i]) && base <= ip[q] < base + k
  {
    HighValue(addr, q, base, k);
    if forall i :: 0 <= i < q ==> ip[i] == addr[i] {
      if q == 0 {
      } else if q == 1 {
      } else if q == 2 {
      } else {
      }
    } else {
      var i :| 0 <= i < q && ip[i] != addr[i] && forall j :: 0 <= j < i ==> ip[j] == addr[j];
      DiffersAt(Low(addr, q, base), ip, i);
      DiffersAt(High(addr, q, base, k), ip, i);
    }
  }

  /** The first octet in which two addresses differ decides their order. */
  lemma DiffersAt(a: IP, b: IP, i: nat)
    requires i < 4 && a[i] != b[i] && forall j :: 0 <= j < i ==> a[j] == b[j]
    ensures a[i] < b[i] <==> Value(a) < Value(b)
  {
  }

  lemma SharesPrefixOctets(addr: IP, ip: IP, p: nat)
    requires p <= 32 && BlockSize(p) > 0
    ensures var q, k := SplitOctet(p), BlockSize(p);
            SharesPrefix(addr, ip, p) <==> (forall i :: 0 <= i < q ==> ip[i] == addr[i]) && addr[q] / k == ip[q] / k
  {
    var q, k := SplitOctet(p), BlockSize(p);
    assert Pow2(0) == 1 && Pow2(8) == 256;
    forall i | 0 <= i < 4
      ensures SharesBits(addr[i], ip[i], Ones(p, i)) <==>
              if i < q then ip[i] == addr[i] else if i == q then addr[q] / k == ip[q] / k else true
    {
      assert i < q ==> Ones(p, i) == 8;
      assert i > q ==> Ones(p, i) == 0;
    }
    assert SharesPrefix(addr, ip, p) ==> SharesBits(addr[q], ip[q], Ones(p, q));
    assert forall i :: SharesPrefix(addr, ip, p) && 0 <= i < q ==> SharesBits(addr[i], ip[i], Ones(p, i));
  }

  /** Min and Max bound exactly the addresses that share the first `p` bits with `addr`. */
  lemma BlockIsPrefix(addr: IP, p: nat, ip: IP)
    requires p <= 32
    ensures SharesPrefix(addr, ip, p) <==> Value(Block32(addr, p).min) <= Value(ip) <= Value(Block32(addr, p).max)
  {
    var q, k := SplitOctet(p), BlockSize(p);
    Block32Shape(addr, p);
    SharesPrefixOctets(addr, ip, p);
    SameBlock(addr[q], ip[q], k);
    Between(addr, q, Base(addr[q], k), k, ip);
  }

  lemma {:induction false} Pow2Add(m: nat, n: nat)
    ensures Pow2(m + n) == Pow2(m) * Pow2(n)
  {
    if m > 0 {
      Pow2Add(m - 1, n);
      assert Pow2(m) * Pow2(n) == 2 * (Pow2(m - 1) * Pow2(n));
    }
  }

  lemma SpanIsPow2(p: nat)
    requires p <= 32
    ensures Span(SplitOctet(p), BlockSize(p)) == Pow2(32 - p) - 1
  {
    var q := SplitOctet(p);
    var r := Ones(p, q);
    assert 32 - p == (8 - r) + 8 * (3 - q);
    Pow2Add(8 - r, 8 * (3 - q));
    assert Pow2(8) == 256;
    Pow2Add(8, 8);
    Pow2Add(8, 16);
  }

  /** The wheels of a block, seen from its lower end. */
  lemma BlockWheels(addr: IP, q: nat, base: int, k: int)
    requires q < 4 && 0 <= base && 1 <= k && base + k <= 256
    ensures var w := Minus(High(addr, q, base, k), Low(addr, q, base));
            (forall i :: 0 <= i < q ==> w[i] == 0) && w[q] == k - 1 && forall i :: q < i < 4 ==> w[i] == 255
  {
  }

  /** In a block the odometer counts like a plain number: no carry crosses the octets before `q`. */
  lemma RankIsDistance(low: IP, w: IP, q: nat, ip: IP)
    requires q < 4 && (forall i :: 0 <= i < q ==> w[i] == 0) && forall i :: q < i < 4 ==> w[i] == 255 && low[i] == 0
    requires low[q] + w[q] < 256 && Below(Minus(ip, low), w)
    ensures Value(ip) == Value(low) + Rank(Minus(ip, low), w)
  {
    var m := Minus(ip, low);
    forall i | 0 <= i < 4 ensures ip[i] == low[i] + m[i] {
      NoCarry(ip[i], low[i]) by { assert m[i] <= w[i]; }
    }
    RankIsValue(m, w, q);
  }

  lemma NoCarry(b: int, low: int)
    requires 0 <= b < 256 && 0 <= low && low + Octet(b - low) < 256
    ensures b == low + Octet(b - low)
  {
  }

  lemma RankIsValue(m: IP, w: IP, q: nat)
    requires q < 4 && Below(m, w) && (forall i :: 0 <= i < q ==> w[i] == 0) && forall i :: q < i < 4 ==> w[i] == 255
    ensures Rank(m, w) == Value(m)
  {
  }

  /** Expanding a block emits the 2^(32-p) consecutive addresses from Min on, in ascending order. */
  lemma BlockExpandsInOrder(addr: IP, p: nat, out: seq<IP>)
    requires p <= 32
    requires var r := Block32(addr, p);
             Emitted(r.min, Minus(r.max, r.min), out) && |out| == Size(Minus(r.max, r.min))
    ensures |out| == Pow2(32 - p)
    ensures forall i :: 0 <= i < |out| ==> Value(out[i]) == Value(Block32(addr, p).min) + i
  {
    BlockCounts(addr, p);
    var r := Block32(addr, p);
    forall i | 0 <= i < |out| ensures Value(out[i]) == Value(r.min) + i {
      RankIsDistance(r.min, Minus(r.max, r.min), SplitOctet(p), out[i]);
    }
    BlockSizeIsPow2(addr, p);
  }

  /** The wheels of a block meet what `RankIsDistance` asks for. */
  lemma BlockCounts(addr: IP, p: nat)
    requires p <= 32
    ensures var q := SplitOctet(p); var r := Block32(addr, p); var w := Minus(r.max, r.min);
      q < 4 && (forall i :: 0 <= i < q ==> w[i] == 0) && (forall i :: q < i < 4 ==> w[i] == 255 && r.min[i] == 0) &&
      r.min[q] + w[q] < 256
  {
    var q, k := SplitOctet(p), BlockSize(p);
    Block32Shape(addr, p);
    var base := Base(addr[q], k);
    BlockWheels(addr, q, base, k);
    LowIsBase(addr, q, base);
  }

  lemma LowIsBase(addr: IP, q: nat, base: int)
    requires q < 4 && 0 <= base < 256
    ensures var low := Low(addr, q, base); low[q] == base && forall i :: q < i < 4 ==> low[i] == 0
  {
  }

  lemma BlockSizeIsPow2(addr: IP, p: nat)
    requires p <= 32
    ensures var r := Block32(addr, p); Size(Minus(r.max, r.min)) == Pow2(32 - p)
  {
    var q, k := SplitOctet(p), BlockSize(p);
    var r := Block32(addr, p);
    BlockCounts(addr, p);
    Block32Shape(addr, p);
    var w := Minus(r.max, r.min);
    RankIsBounded(w, w);
    RankIsDistance(r.min, w, q, r.max);
    HighValue(addr, q, Base(addr[q], k), k);
    SpanIsPow2(p);
  }
}
