/** tabletest/parse_duration.go: what a duration text is and what it means, apart from how it is parsed. */
module DurationText {
  import opened Common
  import opened Utf8
  import Seqs

  /** The largest int64. */
  const MAX: int := 0x7FFF_FFFF_FFFF_FFFF

  const DOT: byte := 0x2E
  const PLUS: byte := 0x2B
  const MINUS: byte := 0x2D
  const ZERO: byte := 0x30

  predicate IsDigit(b: byte) { ZERO <= b <= 0x39 }

  predicate Digits(s: seq<byte>) { forall i :: 0 <= i < |s| ==> IsDigit(s[i]) }

  predicate InUnit(b: byte) { b != DOT && !IsDigit(b) }

  function Digit(b: byte): int { b - ZERO }

  function Number(s: seq<byte>): int {
    if s == [] then 0 else Number(s[..|s| - 1]) * 10 + Digit(s[|s| - 1])
  }

  /** unitMap; micro is written with u, with the micro sign or with the Greek letter. */
  function Unit(u: seq<byte>): (n: nat)
    ensures n <= 3600000000000
  {
    if u == [0x6E, 0x73] then 1
    else if u == [0x75, 0x73] || u == [0xC2, 0xB5, 0x73] || u == [0xCE, 0xBC, 0x73] then 1000
    else if u == [0x6D, 0x73] then 1000000
    else if u == [0x73] then 1000000000
    else if u == [0x6D] then 60000000000
    else if u == [0x68] then 3600000000000
    else 0
  }

  /** A decimal number with a unit, such as 1.5h */
  datatype Term = Term(whole: seq<byte>, point: bool, frac: seq<byte>, unit: seq<byte>)

  predicate IsTerm(t: Term) {
    Digits(t.whole) && Digits(t.frac) && (t.whole != [] || t.frac != []) && (!t.point ==> t.frac == []) &&
      Unit(t.unit) > 0
  }

  predicate AreTerms(ts: seq<Term>) { forall t :: t in ts ==> IsTerm(t) }

  function Fraction(t: Term): seq<byte> { if t.point then [DOT] + t.frac else [] }

  function Render(t: Term): seq<byte> { t.whole + (Fraction(t) + t.unit) }

  function RenderAll(ts: seq<Term>): seq<byte> { if ts == [] then [] else Render(ts[0]) + RenderAll(ts[1..]) }

  // ---- Reading a text as terms ----

  /** How many bytes at the start are digits. */
  function Run(s: seq<byte>): (n: nat)
    ensures n <= |s| && Digits(s[..n]) && (n < |s| ==> !IsDigit(s[n]))
  {
    if s == [] || !IsDigit(s[0]) then 0 else
      var n := 1 + Run(s[1..]);
      assert forall i :: 1 <= i < n ==> s[i] == s[1..][i - 1];
      n
  }

  function UnitRun(s: seq<byte>): (n: nat)
    ensures n <= |s| && (forall i :: 0 <= i < n ==> InUnit(s[i])) && (n < |s| ==> !InUnit(s[n]))
  {
    if s == [] || !InUnit(s[0]) then 0 else
      var n := 1 + UnitRun(s[1..]);
      assert forall i :: 1 <= i < n ==> s[i] == s[1..][i - 1];
      n
  }

  function AfterWhole(s: seq<byte>): seq<byte> { s[Run(s)..] }

  predicate HasPoint(s: seq<byte>) { s != [] && s[0] == DOT }

  function PartFraction(rest: seq<byte>): seq<byte> { if HasPoint(rest) then rest[1..][..Run(rest[1..])] else [] }

  function AfterFraction(rest: seq<byte>): seq<byte> { if HasPoint(rest) then rest[1..][Run(rest[1..])..] else rest }

  function AfterUnit(tail: seq<byte>): seq<byte> { tail[UnitRun(tail)..] }

  /** The longest number, fraction and unit at the start, whether or not they make a term. */
  function First(s: seq<byte>): Term {
    var rest := AfterWhole(s);
    var tail := AfterFraction(rest);
    Term(s[..Run(s)], HasPoint(rest), PartFraction(rest), tail[..UnitRun(tail)])
  }

  function Rest(s: seq<byte>): seq<byte> { AfterUnit(AfterFraction(AfterWhole(s))) }

  lemma FractionSplits(rest: seq<byte>, t: Term)
    requires t.point == HasPoint(rest) && t.frac == PartFraction(rest)
    ensures Fraction(t) + AfterFraction(rest) == rest
  {
  }

  lemma FirstSplits(s: seq<byte>)
    ensures Render(First(s)) + Rest(s) == s
  {
    var t := First(s);
    var rest := AfterWhole(s);
    var tail := AfterFraction(rest);
    Seqs.Cut(s, Run(s));
    FractionSplits(rest, t);
    Seqs.Cut(tail, UnitRun(tail));
    Seqs.Assoc(Fraction(t), t.unit, Rest(s));
    Seqs.Assoc(t.whole, Fraction(t) + t.unit, Rest(s));
  }

  lemma FirstIsPositive(s: seq<byte>)
    requires Unit(First(s).unit) > 0
    ensures |Rest(s)| < |s|
  {
  }

  /** The text cut into terms, if it can be. */
  function Terms(s: seq<byte>): Option<seq<Term>>
    decreases |s|
  {
    if s == [] then Some([])
    else if !IsTerm(First(s)) then None
    else
      FirstIsPositive(s);
      var rest := Terms(Rest(s));
      if rest.None? then None else Some([First(s)] + rest.value)
  }

  lemma RenderCons(t: Term, ts: seq<Term>)
    ensures RenderAll([t] + ts) == Render(t) + RenderAll(ts)
  {
  }

  lemma {:induction false} TermsSound(s: seq<byte>)
    ensures Terms(s).Some? ==> AreTerms(Terms(s).value) && RenderAll(Terms(s).value) == s
    decreases |s|
  {
    if s != [] && IsTerm(First(s)) {
      FirstIsPositive(s);
      TermsSound(Rest(s));
      if Terms(Rest(s)).Some? {
        RenderCons(First(s), Terms(Rest(s)).value);
        FirstSplits(s);
      }
    }
  }

  // ---- Each text is read the one way it can be ----

  lemma {:induction false} RunAt(s: seq<byte>, n: nat)
    requires n <= |s| && Digits(s[..n]) && (n < |s| ==> !IsDigit(s[n]))
    ensures Run(s) == n
  {
  }

  lemma {:induction false} UnitRunAt(s: seq<byte>, n: nat)
    requires n <= |s| && (forall i :: 0 <= i < n ==> InUnit(s[i])) && (n < |s| ==> !InUnit(s[n]))
    ensures UnitRun(s) == n
  {
  }

  /** What may follow a term: nothing, or the start of another. */
  predicate Follows(rest: seq<byte>) { rest == [] || !InUnit(rest[0]) }

  lemma TailRead(unit: seq<byte>, rest: seq<byte>)
    requires Unit(unit) > 0 && Follows(rest)
    ensures UnitRun(unit + rest) == |unit| && (unit + rest)[..|unit|] == unit && (unit + rest)[|unit|..] == rest
  {
  }

  lemma FractionRead(t: Term, tail: seq<byte>)
    requires IsTerm(t) && tail != [] && InUnit(tail[0])
    ensures var rest := Fraction(t) + tail;
      HasPoint(rest) == t.point && PartFraction(rest) == t.frac && AfterFraction(rest) == tail
  {
    var rest := Fraction(t) + tail;
    if t.point {
      Seqs.Assoc([DOT], t.frac, tail);
      var after := t.frac + tail;
      assert rest[1..] == after;
      assert after[..|t.frac|] == t.frac && after[|t.frac|..] == tail;
      RunAt(after, |t.frac|);
    } else {
      Seqs.All(tail);
    }
  }

  lemma WholeRead(whole: seq<byte>, rest: seq<byte>)
    requires Digits(whole) && rest != [] && !IsDigit(rest[0])
    ensures Run(whole + rest) == |whole| && (whole + rest)[..|whole|] == whole && AfterWhole(whole + rest) == rest
  {
  }

  lemma FirstRead(t: Term, rest: seq<byte>)
    requires IsTerm(t) && Follows(rest)
    ensures First(Render(t) + rest) == t && Rest(Render(t) + rest) == rest
  {
    var tail := t.unit + rest;
    TailRead(t.unit, rest);
    FractionRead(t, tail);
    var after := Fraction(t) + tail;
    WholeRead(t.whole, after);
    Seqs.Assoc(Fraction(t), t.unit, rest);
    Seqs.Assoc(t.whole, Fraction(t) + t.unit, rest);
  }

  lemma RenderStarts(t: Term, rest: seq<byte>)
    requires IsTerm(t)
    ensures Render(t) + rest != [] && Follows(Render(t) + rest)
  {
  }

  lemma {:induction false} TermsComplete(ts: seq<Term>)
    requires AreTerms(ts)
    ensures Terms(RenderAll(ts)) == Some(ts) && Follows(RenderAll(ts))
  {
    if ts != [] {
      var rest := RenderAll(ts[1..]);
      TermsComplete(ts[1..]);
      FirstRead(ts[0], rest);
      RenderStarts(ts[0], rest);
      Seqs.Head(ts);
    }
  }

  /** A text is a sequence of terms in at most one way, and the greedy reading finds it. */
  lemma TermsAreTheReading(s: seq<byte>, ts: seq<Term>)
    ensures Terms(s) == Some(ts) <==> AreTerms(ts) && RenderAll(ts) == s
  {
    TermsSound(s);
    if AreTerms(ts) { TermsComplete(ts); }
  }
}
