/** tabletest/parse_duration.go: the parser over wrapping int64, against the meaning of the text. */
module Duration {
  import opened Common
  import opened Utf8
  import opened DurationText
  import Seqs

  /** How many digits of a fraction fit an int64; the others are ignored. */
  function Kept(frac: seq<byte>, k: nat): (n: nat)
    requires k <= |frac|
    ensures k <= n <= |frac|
    decreases |frac| - k
  {
    if k < |frac| && Number(frac[..k + 1]) <= MAX then Kept(frac, k + 1) else k
  }

  /**
   * The value of a term in nanoseconds. `round` stands for the floating point product of the digits after
   * the point, how many they are, and the unit.
   */
  function Value(t: Term, round: (int, nat, nat) -> int): int {
    var k := Kept(t.frac, 0);
    var f := Number(t.frac[..k]);
    Number(t.whole) * Unit(t.unit) + if f > 0 then round(f, k, Unit(t.unit)) else 0
  }

  function Total(ts: seq<Term>, round: (int, nat, nat) -> int): int {
    if ts == [] then 0 else Value(ts[0], round) + Total(ts[1..], round)
  }

  /** A rounded fraction of a unit lies between nothing and the whole unit. */
  ghost predicate Rounds(round: (int, nat, nat) -> int) {
    forall f, k, u :: 0 <= round(f, k, u) <= u
  }

  function Unsigned(s: seq<byte>): seq<byte> { if s != [] && (s[0] == MINUS || s[0] == PLUS) then s[1..] else s }

  function Sign(s: seq<byte>): int { if s != [] && s[0] == MINUS then -1 else 1 }

  /** The duration a text means: a sign, then 0 or terms whose sum is at most the largest int64. */
  function Meaning(s: seq<byte>, round: (int, nat, nat) -> int): Option<int> {
    var body := Unsigned(s);
    if body == [ZERO] then Some(0)
    else if body == [] || Terms(body).None? then None
    else if Total(Terms(body).value, round) > MAX then None
    else Some(Sign(s) * Total(Terms(body).value, round))
  }

  // ---- Numbers ----

  lemma NumberStep(s: seq<byte>, i: nat)
    requires i < |s|
    ensures Number(s[..i + 1]) == Number(s[..i]) * 10 + Digit(s[i])
  {
    assert s[..i + 1][..i] == s[..i];
  }

  lemma {:induction false} NumberGrows(s: seq<byte>, i: nat)
    requires i <= |s| && Digits(s)
    ensures 0 <= Number(s[..i]) <= Number(s)
  {
    if i == |s| {
      Seqs.All(s);
      if s != [] {
        NumberGrows(s[..|s| - 1], |s| - 1);
        Seqs.All(s[..|s| - 1]);
      }
    } else {
      NumberGrows(s[..|s| - 1], i);
      Seqs.TakeTake(s, |s| - 1, i);
    }
  }

  /** The two tests of leadingInt notice exactly the numbers that do not fit. */
  lemma DigitFits(x: int, c: byte)
    requires 0 <= x <= MAX && IsDigit(c)
    ensures x > MAX / 10 ==> x * 10 + Digit(c) > MAX
    ensures x <= MAX / 10 ==> (Wrap(Wrap(x * 10 + c) - ZERO) < 0 <==> x * 10 + Digit(c) > MAX)
    ensures x * 10 + Digit(c) <= MAX ==> Wrap(Wrap(x * 10 + c) - ZERO) == x * 10 + Digit(c)
  {
  }

  method LeadingInt(s: seq<byte>) returns (x: int, rem: seq<byte>, ok: bool)
    ensures ok <==> Number(s[..Run(s)]) <= MAX
    ensures ok ==> x == Number(s[..Run(s)]) && rem == AfterWhole(s)
  {
    x := 0;
    var i := 0;
    while i < |s|
      invariant i <= |s| && Digits(s[..i]) && x == Number(s[..i]) && 0 <= x <= MAX
    {
      var c := s[i];
      if c < ZERO || c > 0x39 { break; }
      assert s[..i + 1] == s[..i] + [c];
      NumberStep(s, i);
      DigitFits(x, c);
      if x > MAX / 10 {
        TooLarge(s, i + 1);
        return 0, [], false;
      }
      x := Wrap(Wrap(x * 10 + c) - ZERO);
      if x < 0 {
        TooLarge(s, i + 1);
        return 0, [], false;
      }
      i := i + 1;
    }
    RunAt(s, i);
    return x, s[i..], true;
  }

  lemma TooLarge(s: seq<byte>, i: nat)
    requires i <= |s| && Digits(s[..i]) && Number(s[..i]) > MAX
    ensures Number(s[..Run(s)]) > MAX
  {
    RunCovers(s, i);
    NumberGrows(s[..Run(s)], i);
    Seqs.TakeTake(s, Run(s), i);
  }

  lemma {:induction false} RunCovers(s: seq<byte>, i: nat)
    requires i <= |s| && Digits(s[..i])
    ensures i <= Run(s)
  {
  }

  /** The digits after the point, as many as fit; `k` counts them, which is the power of ten of the scale. */
  method LeadingFraction(s: seq<byte>) returns (x: int, k: nat, rem: seq<byte>)
    ensures var frac := s[..Run(s)]; k == Kept(frac, 0) && x == Number(frac[..k]) && rem == s[Run(s)..]
    ensures 0 <= x <= MAX
  {
    x, k := 0, 0;
    var i := 0;
    var overflow := false;
    ghost var frac := s[..Run(s)];
    while i < |s|
      invariant i <= |s| && Digits(s[..i]) && 0 <= x <= MAX && k <= i <= |frac| && x == Number(frac[..k])
      invariant if overflow then Kept(frac, 0) == k else k == i && Kept(frac, 0) == Kept(frac, i)
    {
      var c := s[i];
      if c < ZERO || c > 0x39 { break; }
      assert s[..i + 1] == s[..i] + [c];
      RunCovers(s, i + 1);
      i := i + 1;
      if overflow { continue; }
      NumberStep(frac, i - 1);
      DigitFits(x, c);
      if x > MAX / 10 {
        overflow := true;
        continue;
      }
      var y := Wrap(Wrap(x * 10 + c) - ZERO);
      if y < 0 {
        overflow := true;
        continue;
      }
      x := y;
      k := k + 1;
    }
    RunAt(s, i);
    return x, k, s[i..];
  }

  // ---- One term ----

  /** The overflow test before multiplying is exact. */
  lemma ProductFits(v: int, unit: nat)
    requires 0 <= v && unit > 0
    ensures v > MAX / unit <==> v * unit > MAX
  {
    QuotientBounds(unit);
    if v <= MAX / unit {
      Monotone(v, MAX / unit, unit);
    } else {
      Monotone(MAX / unit + 1, v, unit);
    }
  }

  lemma QuotientBounds(unit: nat)
    requires unit > 0
    ensures (MAX / unit) * unit <= MAX < (MAX / unit + 1) * unit
  {
  }

  lemma Monotone(a: int, b: int, unit: nat)
    requires a <= b
    ensures a * unit <= b * unit
  {
  }

  /** Two sums of parts that fit overflow exactly when they turn negative. */
  lemma SumFits(a: int, b: int)
    requires 0 <= a <= MAX && 0 <= b <= MAX
    ensures Wrap(a + b) < 0 <==> a + b > MAX
    ensures a + b <= MAX ==> Wrap(a + b) == a + b
  {
  }

  /**
   * Splits off the number, the fraction and the unit; fails where the text shows no term or the number is too
   * large.
   */
  method Scan(s: seq<byte>) returns (v: int, f: int, k: nat, unit: nat, rest: seq<byte>, ok: bool)
    requires s != []
    ensures ok <==> IsTerm(First(s)) && Number(First(s).whole) <= MAX
    ensures ok ==> v == Number(First(s).whole) && unit == Unit(First(s).unit) && rest == Rest(s)
    ensures ok ==> k == Kept(First(s).frac, 0) && f == Number(First(s).frac[..k]) && 0 <= v && 0 <= f
  {
    v, f, k, unit, rest, ok := 0, 0, 0, 0, s, false;
    if !(s[0] == DOT || (ZERO <= s[0] && s[0] <= 0x39)) { return; }
    v, rest, ok := LeadingInt(s);
    if !ok { return; }
    NumberGrows(s[..Run(s)], 0);
    Seqs.All(s[..Run(s)]);
    var pre := |s| != |rest|;
    var post;
    f, k, rest, post := ScanFraction(rest);
    ok := false;
    if !pre && !post { return; }
    var i := ScanUnit(rest);
    if i == 0 { return; }
    unit := Unit(rest[..i]);
    rest := rest[i..];
    ok := unit != 0;
  }

  method ScanFraction(s: seq<byte>) returns (f: int, k: nat, rest: seq<byte>, post: bool)
    ensures rest == AfterFraction(s) && (post <==> PartFraction(s) != [])
    ensures k == Kept(PartFraction(s), 0) && f == Number(PartFraction(s)[..k]) && 0 <= f
  {
    f, k, rest, post := 0, 0, s, false;
    if |rest| != 0 && rest[0] == DOT {
      rest := rest[1..];
      var pl := |rest|;
      f, k, rest := LeadingFraction(rest);
      post := pl != |rest|;
    }
  }

  method ScanUnit(s: seq<byte>) returns (i: nat)
    ensures i == UnitRun(s)
  {
    i := 0;
    while i < |s|
      invariant i <= |s| && forall j :: 0 <= j < i ==> InUnit(s[j])
    {
      var c := s[i];
      if c == DOT || (ZERO <= c && c <= 0x39) { break; }
      i := i + 1;
    }
    UnitRunAt(s, i);
  }

  /** The overflow tests after the unit, and the sum with what was read before. */
  method AddTerm(d0: int, v0: int, f: int, k: nat, unit: nat, round: (int, nat, nat) -> int) returns (d: int, ok: bool)
    requires Rounds(round) && 0 <= d0 <= MAX && 0 <= v0 <= MAX && 0 <= f && 0 < unit <= 3600000000000
    ensures ok <==> d0 + (v0 * unit + if f > 0 then round(f, k, unit) else 0) <= MAX
    ensures ok ==> d == d0 + (v0 * unit + if f > 0 then round(f, k, unit) else 0)
  {
    d, ok := d0, false;
    var v := v0;
    ProductFits(v, unit);
    Monotone(0, v, unit);
    assert f > 0 ==> 0 <= round(f, k, unit) <= unit;
    if v > MAX / unit { return; }
    v := Wrap(v * unit);
    if f > 0 {
      SumFits(v, round(f, k, unit));
      v := Wrap(v + round(f, k, unit));
      if v < 0 { return; }
    }
    SumFits(d, v);
    d := Wrap(d + v);
    ok := d >= 0;
  }

  lemma ValueIsPositive(t: Term, round: (int, nat, nat) -> int)
    requires IsTerm(t) && Rounds(round)
    ensures Value(t, round) >= 0 && (Value(t, round) <= MAX ==> Number(t.whole) <= MAX)
  {
    NumberGrows(t.whole, 0);
    Monotone(1, Unit(t.unit), Number(t.whole));
    var k := Kept(t.frac, 0);
    assert 0 <= round(Number(t.frac[..k]), k, Unit(t.unit));
  }

  lemma {:induction false} TotalIsPositive(ts: seq<Term>, round: (int, nat, nat) -> int)
    requires AreTerms(ts) && Rounds(round)
    ensures Total(ts, round) >= 0
  {
    if ts != [] {
      ValueIsPositive(ts[0], round);
      TotalIsPositive(ts[1..], round);
    }
  }

  /** What reading one term leaves to read. */
  lemma TermsStep(s: seq<byte>, round: (int, nat, nat) -> int)
    requires s != [] && IsTerm(First(s)) && Rounds(round)
    ensures Value(First(s), round) >= 0
    ensures Terms(s).Some? <==> Terms(Rest(s)).Some?
    ensures Terms(s).Some? ==>
      Total(Terms(s).value, round) == Value(First(s), round) + Total(Terms(Rest(s)).value, round)
    ensures Terms(s).Some? ==> Total(Terms(Rest(s)).value, round) >= 0
  {
    FirstIsPositive(s);
    ValueIsPositive(First(s), round);
    TermsSound(Rest(s));
    if Terms(s).Some? {
      assert ([First(s)] + Terms(Rest(s)).value)[1..] == Terms(Rest(s)).value;
      TotalIsPositive(Terms(Rest(s)).value, round);
    }
  }

  /** The sum of the terms of `s` on top of `d`, if `s` is made of terms. */
  ghost predicate SumsTo(s: seq<byte>, d: int, all: Option<seq<Term>>, round: (int, nat, nat) -> int) {
    (all.Some? <==> Terms(s).Some?) && (all.Some? ==> Total(all.value, round) == d + Total(Terms(s).value, round))
  }

  /** One round of the loop: what is added, and that failing means the text has no meaning. */
  method ParseTerm(s: seq<byte>, d0: int, round: (int, nat, nat) -> int, ghost all: Option<seq<Term>>)
    returns (rest: seq<byte>, d: int, ok: bool)
    requires s != [] && Rounds(round) && 0 <= d0 <= MAX && SumsTo(s, d0, all, round)
    ensures ok ==> |rest| < |s| && 0 <= d <= MAX && SumsTo(rest, d, all, round)
    ensures !ok ==> all.None? || Total(all.value, round) > MAX
  {
    d := d0;
    var v, f, k, unit;
    v, f, k, unit, rest, ok := Scan(s);
    if IsTerm(First(s)) {
      TermsStep(s, round);
      ValueIsPositive(First(s), round);
    }
    if ok {
      FirstIsPositive(s);
      d, ok := AddTerm(d0, v, f, k, unit, round);
    }
  }

  method ConsumeSign(orig: seq<byte>) returns (s: seq<byte>, neg: bool)
    ensures s == Unsigned(orig) && Sign(orig) == if neg then -1 else 1
  {
    s, neg := orig, false;
    if s != [] {
      var c := s[0];
      if c == MINUS || c == PLUS {
        neg := c == MINUS;
        s := s[1..];
      }
    }
  }

  /** The loop over the terms of what follows the sign. */
  method ParseTerms(body: seq<byte>, round: (int, nat, nat) -> int) returns (d: int, ok: bool)
    requires Rounds(round)
    ensures ok <==> Terms(body).Some? && Total(Terms(body).value, round) <= MAX
    ensures ok ==> d == Total(Terms(body).value, round) && 0 <= d <= MAX
  {
    var s := body;
    d, ok := 0, true;
    ghost var all := Terms(body);
    while |s| != 0
      invariant 0 <= d <= MAX && SumsTo(s, d, all, round)
      decreases |s|
    {
      s, d, ok := ParseTerm(s, d, round, all);
      if !ok { return; }
    }
    ok := true;
  }

  /**
   * The result is the meaning of the text, exactly: an error when the text is not a duration or the
   * magnitude does not fit an int64, and never a wrapped sum.
   */
  method ParseDuration(orig: seq<byte>, round: (int, nat, nat) -> int) returns (r: Option<int>)
    requires Rounds(round)
    ensures r == Meaning(orig, round)
  {
    var s, neg := ConsumeSign(orig);
    if s == [ZERO] { return Some(0); }
    if s == [] { return None; }
    var d, ok := ParseTerms(s, round);
    if !ok { return None; }
    if neg { d := Wrap(-d); }
    return Some(d);
  }

  // ---- What a duration is ----

  /** The text is a sign and either 0 or terms, written one after another. */
  ghost predicate Spells(s: seq<byte>, sign: seq<byte>, ts: seq<Term>) {
    sign in {[], [PLUS], [MINUS]} && ts != [] && AreTerms(ts) && s == sign + RenderAll(ts)
  }

  lemma NoSignInside(ts: seq<Term>)
    requires ts != [] && AreTerms(ts)
    ensures RenderAll(ts) != [] && !InUnit(RenderAll(ts)[0]) && RenderAll(ts) != [ZERO]
  {
    RenderStarts(ts[0], RenderAll(ts[1..]));
    TermsComplete(ts);
    if RenderAll(ts) == [ZERO] { ZeroIsNoTerm(); }
  }

  lemma ZeroIsNoTerm()
    ensures Terms([ZERO]) == None
  {
  }

  /** Success means a duration is spelled, and the result is its sum; a duration spelled and small enough succeeds. */
  lemma MeaningOfSpelling(s: seq<byte>, sign: seq<byte>, ts: seq<Term>, round: (int, nat, nat) -> int)
    requires Spells(s, sign, ts)
    ensures Meaning(s, round) == if Total(ts, round) > MAX then None
                                 else Some((if sign == [MINUS] then -1 else 1) * Total(ts, round))
  {
    NoSignInside(ts);
    TermsComplete(ts);
    SignIsRead(sign, RenderAll(ts));
  }

  lemma SignIsRead(sign: seq<byte>, body: seq<byte>)
    requires sign in {[], [PLUS], [MINUS]} && body != [] && !InUnit(body[0])
    ensures Unsigned(sign + body) == body && Sign(sign + body) == if sign == [MINUS] then -1 else 1
  {
  }

  lemma SignSplits(s: seq<byte>) returns (sign: seq<byte>)
    ensures sign in {[], [PLUS], [MINUS]} && s == sign + Unsigned(s)
  {
    if s != [] && (s[0] == MINUS || s[0] == PLUS) {
      sign := [s[0]];
      Seqs.Head(s);
    } else {
      sign := [];
      Seqs.All(s);
    }
  }

  lemma TermsOfBody(body: seq<byte>) returns (ts: seq<Term>)
    requires body != [] && Terms(body).Some?
    ensures ts != [] && AreTerms(ts) && RenderAll(ts) == body
  {
    ts := Terms(body).value;
    TermsSound(body);
  }

  lemma SuccessIsSpelled(s: seq<byte>, round: (int, nat, nat) -> int) returns (sign: seq<byte>, ts: seq<Term>)
    requires Meaning(s, round).Some?
    ensures Spells(s, sign, ts) || (Unsigned(s) == [ZERO] && Meaning(s, round) == Some(0))
  {
    sign := SignSplits(s);
    ts := [];
    if Unsigned(s) != [ZERO] {
      ts := TermsOfBody(Unsigned(s));
    }
  }
}
