/** tabletest/parse_duration.go: what duration texts mean, in ordinary numbers and units. */
module DurationLaws {
  import opened Common
  import opened Utf8
  import opened Decimals
  import opened DurationText
  import opened Duration
  import Seqs

  // ---- Units ----

  const NS: seq<byte> := ['n' as int, 's' as int]
  const US: seq<byte> := ['u' as int, 's' as int]
  const MS: seq<byte> := ['m' as int, 's' as int]
  const S: seq<byte> := ['s' as int]
  const M: seq<byte> := ['m' as int]
  const H: seq<byte> := ['h' as int]

  /** The units by their ratios; the micro sign U+00B5 and the Greek letter U+03BC spell the microsecond, too. */
  lemma UnitsMean()
    ensures Unit(NS) == 1 && Unit(US) == 1000 * Unit(NS) && Unit(MS) == 1000 * Unit(US) && Unit(S) == 1000 * Unit(MS)
    ensures Unit(M) == 60 * Unit(S) && Unit(H) == 60 * Unit(M)
    ensures Unit(EncodeRune(0xB5) + S) == Unit(US) && Unit(EncodeRune(0x3BC) + S) == Unit(US)
    ensures forall u :: Unit(u) > 0 ==> u in {NS, US, MS, S, M, H, EncodeRune(0xB5) + S, EncodeRune(0x3BC) + S}
  {
    assert EncodeRune(0xB5) + S == [0xC2, 0xB5, 0x73];
    assert EncodeRune(0x3BC) + S == [0xCE, 0xBC, 0x73];
  }

  // ---- Numbers ----

  lemma {:induction false} NumberOfDecimal(n: nat)
    ensures Digits(Decimal(n)) && Number(Decimal(n)) == n
  {
    DecimalDigits(n);
    if n < 10 {
      assert Decimal(n)[..0] == [];
    } else {
      NumberOfDecimal(n / 10);
      assert Decimal(n)[..|Decimal(n)| - 1] == Decimal(n / 10);
    }
  }

  function Pow10(k: nat): nat { if k == 0 then 1 else 10 * Pow10(k - 1) }

  lemma {:induction false} NumberConcat(a: seq<byte>, b: seq<byte>)
    ensures Number(a + b) == Number(a) * Pow10(|b|) + Number(b)
  {
    if b == [] {
      Seqs.All(a);
    } else {
      var init := b[..|b| - 1];
      NumberConcat(a, init);
      WithoutLast(a, b);
      OneMoreDigit(Number(a), Pow10(|init|), Number(init), Digit(b[|b| - 1]));
    }
  }

  lemma OneMoreDigit(x: int, p: int, y: int, d: int)
    ensures (x * p + y) * 10 + d == x * (10 * p) + (y * 10 + d)
  {
  }

  lemma WithoutLast(a: seq<byte>, b: seq<byte>)
    requires b != []
    ensures (a + b)[..|a + b| - 1] == a + b[..|b| - 1] && (a + b)[|a + b| - 1] == b[|b| - 1]
  {
  }

  lemma {:induction false} NumberIsShort(s: seq<byte>)
    requires Digits(s)
    ensures 0 <= Number(s) < Pow10(|s|)
  {
    if s != [] { NumberIsShort(s[..|s| - 1]); }
  }

  // ---- Terms ----

  function Plain(n: nat, unit: seq<byte>): Term { Term(Decimal(n), false, [], unit) }

  lemma PlainValue(n: nat, unit: seq<byte>, round: (int, nat, nat) -> int)
    requires Unit(unit) > 0
    ensures IsTerm(Plain(n, unit)) && Value(Plain(n, unit), round) == n * Unit(unit)
    ensures Render(Plain(n, unit)) == Decimal(n) + unit
  {
    NumberOfDecimal(n);
    Seqs.All(unit);
    assert Kept([], 0) == 0;
  }

  /** A text of terms without a sign means their sum. */
  lemma SumMeaning(text: seq<byte>, ts: seq<Term>, round: (int, nat, nat) -> int)
    requires ts != [] && AreTerms(ts) && text == RenderAll(ts)
    ensures Meaning(text, round) == if Total(ts, round) > MAX then None else Some(Total(ts, round))
  {
    var sign := SpelledUnsigned(text, ts);
    MeaningOfSpelling(text, sign, ts, round);
  }

  lemma SpelledUnsigned(text: seq<byte>, ts: seq<Term>) returns (sign: seq<byte>)
    requires ts != [] && AreTerms(ts) && text == RenderAll(ts)
    ensures Spells(text, sign, ts) && sign != [MINUS]
  {
    sign := [];
  }

  /** A number and a unit. */
  lemma OneUnit(n: nat, unit: seq<byte>, text: seq<byte>, round: (int, nat, nat) -> int)
    requires Unit(unit) > 0 && text == Decimal(n) + unit
    ensures Meaning(text, round) == if n * Unit(unit) > MAX then None else Some(n * Unit(unit))
  {
    var ts := [Plain(n, unit)];
    OneRendered(n, unit, round);
    SumMeaning(text, ts, round);
  }

  lemma OneRendered(n: nat, unit: seq<byte>, round: (int, nat, nat) -> int)
    requires Unit(unit) > 0
    ensures var ts := [Plain(n, unit)];
      AreTerms(ts) && RenderAll(ts) == Decimal(n) + unit && Total(ts, round) == n * Unit(unit)
  {
    PlainValue(n, unit, round);
    var t := Plain(n, unit);
    assert [t][1..] == [];
    Seqs.All(Render(t));
  }

  /** Hours, minutes and seconds. */
  lemma ClockTime(h: nat, m: nat, s: nat, text: seq<byte>, round: (int, nat, nat) -> int)
    requires text == (Decimal(h) + H) + ((Decimal(m) + M) + (Decimal(s) + S))
    ensures var total := ((h * 60 + m) * 60 + s) * 1_000_000_000;
      Meaning(text, round) == if total > MAX then None else Some(total)
  {
    var ts := [Plain(h, H), Plain(m, M), Plain(s, S)];
    ThreeRendered(h, m, s, round);
    SumMeaning(text, ts, round);
  }

  lemma ThreeRendered(h: nat, m: nat, s: nat, round: (int, nat, nat) -> int)
    ensures var ts := [Plain(h, H), Plain(m, M), Plain(s, S)];
      AreTerms(ts) && RenderAll(ts) == (Decimal(h) + H) + ((Decimal(m) + M) + (Decimal(s) + S)) &&
      Total(ts, round) == ((h * 60 + m) * 60 + s) * 1_000_000_000
  {
    UnitsMean();
    PlainValue(h, H, round);
    PlainValue(m, M, round);
    PlainValue(s, S, round);
    RenderThree(Plain(h, H), Plain(m, M), Plain(s, S));
    TotalThree(Plain(h, H), Plain(m, M), Plain(s, S), round);
  }

  lemma RenderThree(a: Term, b: Term, c: Term)
    ensures RenderAll([a, b, c]) == Render(a) + (Render(b) + Render(c))
  {
    assert [a, b, c][1..] == [b, c] && [b, c][1..] == [c] && [c][1..] == [];
    Seqs.All(Render(c));
    assert RenderAll([c]) == Render(c);
    assert RenderAll([b, c]) == Render(b) + RenderAll([c]);
  }

  lemma TotalThree(a: Term, b: Term, c: Term, round: (int, nat, nat) -> int)
    ensures Total([a, b, c], round) == Value(a, round) + Value(b, round) + Value(c, round)
  {
    assert [a, b, c][1..] == [b, c] && [b, c][1..] == [c] && [c][1..] == [];
    assert Total([c], round) == Value(c, round);
    assert Total([b, c], round) == Value(b, round) + Total([c], round);
  }

  /** A lone zero needs no unit, whatever its sign; other lone numbers do. */
  lemma LoneNumber(n: nat, sign: seq<byte>, text: seq<byte>, round: (int, nat, nat) -> int)
    requires sign in {[], ['+' as int], ['-' as int]} && text == sign + Decimal(n)
    ensures Meaning(text, round) == if n == 0 then Some(0) else None
  {
    DecimalDigits(n);
    NumberOfDecimal(n);
    SignIsCut(sign, Decimal(n));
    NoUnitNoTerm(Decimal(n));
    if n == 0 {
      assert Decimal(n) == [ZERO];
    } else if Decimal(n) == [ZERO] {
      NumberOfZero();
    }
  }

  lemma NumberOfZero()
    ensures Number([ZERO]) == 0
  {
    assert [ZERO][..0] == [];
  }

  lemma SignIsCut(sign: seq<byte>, body: seq<byte>)
    requires sign in {[], [PLUS], [MINUS]} && body != [] && IsDigit(body[0])
    ensures Duration.Unsigned(sign + body) == body
  {
  }

  lemma NoUnitNoTerm(s: seq<byte>)
    requires s != [] && Digits(s)
    ensures Terms(s) == None
  {
    RunAt(s, |s|);
    assert First(s).unit == [];
  }

  /** A minus in front of a text without a sign negates what it means. */
  lemma MinusMeaning(text: seq<byte>, signed: seq<byte>, ts: seq<Term>, round: (int, nat, nat) -> int)
    requires ts != [] && AreTerms(ts) && text == RenderAll(ts) && signed == ['-' as int] + text
    ensures Meaning(signed, round) == if Total(ts, round) > MAX then None else Some(-Total(ts, round))
  {
    MeaningOfSpelling(signed, [MINUS], ts, round);
  }

  /** A plus changes nothing. */
  lemma PlusMeaning(text: seq<byte>, signed: seq<byte>, ts: seq<Term>, round: (int, nat, nat) -> int)
    requires ts != [] && AreTerms(ts) && text == RenderAll(ts) && signed == ['+' as int] + text
    ensures Meaning(signed, round) == Meaning(text, round)
  {
    MeaningOfSpelling(signed, [PLUS], ts, round);
    SumMeaning(text, ts, round);
  }

  // ---- Fractions ----

  /** Of a fraction as many digits are kept as fit an int64. */
  lemma {:induction false} KeptIsLongest(frac: seq<byte>, k: nat)
    requires k <= |frac| && Number(frac[..k]) <= MAX
    ensures var n := Kept(frac, k);
      Number(frac[..n]) <= MAX && (n < |frac| ==> Number(frac[..n + 1]) > MAX)
    decreases |frac| - k
  {
    if k < |frac| && Number(frac[..k + 1]) <= MAX { KeptIsLongest(frac, k + 1); }
  }

  /** The product rounded down, as it would be without floating point. */
  ghost predicate RoundsDown(round: (int, nat, nat) -> int) {
    forall f: int, k: nat, u: nat :: 0 <= f < Pow10(k) ==> round(f, k, u) == Portion(f, k, u)
  }

  function Portion(f: int, k: nat, u: nat): int {
    Pow10IsPositive(k);
    f * u / Pow10(k)
  }

  lemma Pow10IsPositive(k: nat)
    ensures Pow10(k) > 0
  {
  }

  lemma ValueParts(t: Term, round: (int, nat, nat) -> int)
    requires IsTerm(t) && RoundsDown(round)
    ensures var k := Kept(t.frac, 0);
      Number(t.frac[..k]) >= 0 && Number(t.whole) >= 0 &&
      Value(t, round) == Number(t.whole) * Unit(t.unit) + Portion(Number(t.frac[..k]), k, Unit(t.unit))
  {
    var k := Kept(t.frac, 0);
    var f := t.frac[..k];
    NumberIsShort(f);
    NumberIsShort(t.whole);
    if Number(f) > 0 {
      assert round(Number(f), k, Unit(t.unit)) == Portion(Number(f), k, Unit(t.unit));
    } else {
      NoPortion(k, Unit(t.unit));
    }
  }

  lemma NoPortion(k: nat, u: nat)
    ensures Portion(0, k, u) == 0
  {
    Pow10IsPositive(k);
    NothingOver(u, Pow10(k));
  }

  lemma NothingOver(u: nat, p: nat)
    requires p > 0
    ensures 0 * u / p == 0
  {
  }

  lemma PortionOfSum(w: int, f: int, k: nat, u: nat)
    ensures Portion(w * Pow10(k) + f, k, u) == w * u + Portion(f, k, u)
  {
    Pow10IsPositive(k);
    WholeAndPart(w, f, Pow10(k), u);
  }

  /** A decimal number with a unit is the number, without its point, times the unit, over a power of ten. */
  lemma DecimalTimesUnit(t: Term, round: (int, nat, nat) -> int)
    requires IsTerm(t) && RoundsDown(round)
    ensures var k := Kept(t.frac, 0); Value(t, round) == Portion(Number(t.whole + t.frac[..k]), k, Unit(t.unit))
  {
    var k := Kept(t.frac, 0);
    ValueParts(t, round);
    NumberConcat(t.whole, t.frac[..k]);
    PortionOfSum(Number(t.whole), Number(t.frac[..k]), k, Unit(t.unit));
  }

  lemma WholeAndPart(w: int, f: int, p: int, u: int)
    requires p > 0
    ensures (w * p + f) * u / p == w * u + f * u / p
  {
    assert (w * p + f) * u == (w * u) * p + f * u;
    DivAdd(w * u, f * u, p);
  }

  lemma DivAdd(a: int, b: int, p: int)
    requires p > 0
    ensures (a * p + b) / p == a + b / p
  {
    assert a * p + b == (a + b / p) * p + b % p;
    QuotientIsUnique(a * p + b, a + b / p, b % p, p);
  }

  lemma QuotientIsUnique(x: int, q: int, r: int, p: int)
    requires p > 0 && x == q * p + r && 0 <= r < p
    ensures x / p == q
  {
    var d := x / p - q;
    assert d * p == r - x % p;
    AtLeast(d, p);
  }

  lemma AtLeast(d: int, p: int)
    requires p > 0
    ensures d >= 1 ==> d * p >= p
    ensures d <= -1 ==> d * p <= -p
  {
  }
}
