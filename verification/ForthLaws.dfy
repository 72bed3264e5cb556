/** forth/eval.go: what the words do, told without their definitions. */
module ForthLaws {
  import opened Common
  import opened ForthWords

  predicate IsInt64(x: int) { -0x8000_0000_0000_0000 <= x < 0x8000_0000_0000_0000 }

  /** Equal in all 64 bits. */
  ghost predicate Congruent(x: int, y: int) { exists q: int :: Differ(x, y, q) }

  predicate Differ(x: int, y: int, q: int) { x - y == q * 0x1_0000_0000_0000_0000 }

  /** Wrapping keeps the low 64 bits, as the only int64 that does. */
  lemma WrapIsInt64(x: int)
    ensures IsInt64(Wrap(x)) && Congruent(Wrap(x), x) && (IsInt64(x) ==> Wrap(x) == x)
  {
    var h := 0x8000_0000_0000_0000;
    assert Differ(Wrap(x), x, -((x + h) / 0x1_0000_0000_0000_0000));
  }

  /** A number for the result of an arithmetic word: the exact one, in 64 bits. */
  ghost predicate Fits(r: int, exact: int) { IsInt64(r) && Congruent(r, exact) }

  /** The arithmetic words replace the two numbers on top, the upper one being the right operand. */
  lemma ArithmeticMeans(below: Stack, a: int, b: int) returns (sum: int, difference: int, product: int)
    ensures RunPrim(Add, below + [a, b]) == Some(below + [sum]) && Fits(sum, a + b)
    ensures RunPrim(Sub, below + [a, b]) == Some(below + [difference]) && Fits(difference, a - b)
    ensures RunPrim(Mul, below + [a, b]) == Some(below + [product]) && Fits(product, a * b)
  {
    sum, difference, product := Wrap(a + b), Wrap(a - b), Wrap(a * b);
    TopTwo(below, a, b);
    WrapIsInt64(a + b);
    WrapIsInt64(a - b);
    WrapIsInt64(a * b);
  }

  lemma TopTwo(below: Stack, a: int, b: int)
    ensures var st := below + [a, b];
      |st| == |below| + 2 && st[..|st| - 2] == below && st[|st| - 2] == a && st[|st| - 1] == b
  {
  }

  /** Division rounds towards zero and fails on a zero divisor. */
  lemma DivisionMeans(below: Stack, a: int, b: int) returns (q: int, r: int)
    ensures b == 0 ==> RunPrim(Div, below + [a, b]) == None
    ensures b != 0 ==> RunPrim(Div, below + [a, b]) == Some(below + [r]) && Fits(r, q)
    ensures b != 0 ==> Abs(a - q * b) < Abs(b) && Abs(q * b) <= Abs(a)
  {
    TopTwo(below, a, b);
    q, r := 0, 0;
    if b != 0 {
      q := Quotient(a, b);
      r := Wrap(q);
      QuotientTruncates(a, b);
      WrapIsInt64(q);
    }
  }

  /** The other words move numbers about. */
  lemma ShufflesMean(below: Stack, a: int, b: int)
    ensures RunPrim(Dup, below + [a]) == Some(below + [a, a]) && RunPrim(Drop, below + [a]) == Some(below)
    ensures RunPrim(Swap, below + [a, b]) == Some(below + [b, a])
    ensures RunPrim(Over, below + [a, b]) == Some(below + [a, b, a])
  {
    TopTwo(below, a, b);
    assert (below + [a])[..|below|] == below;
    assert below + [a] + [a] == below + [a, a];
    assert below + [a, b] + [a] == below + [a, b, a];
  }

  function Arity(p: Prim): nat { if p.Dup? || p.Drop? then 1 else 2 }

  /** A word fails exactly when it finds too few numbers, or a zero to divide by. */
  lemma FailsExactly(p: Prim, st: Stack)
    ensures RunPrim(p, st) == None <==> |st| < Arity(p) || (p.Div? && st[|st| - 1] == 0)
  {
  }

  /** Taking the difference and adding the subtrahend again gives the minuend back. */
  lemma SubtractThenAdd(below: Stack, a: int, b: int)
    requires IsInt64(a)
    ensures var difference := RunPrim(Sub, below + [a, b]);
      difference.Some? && RunPrim(Add, difference.value + [b]) == Some(below + [a])
  {
    TopTwo(below, a, b);
    var d := Wrap(a - b);
    assert below + [d] + [b] == below + [d, b];
    TopTwo(below, d, b);
    WrapOfWrap(a - b, b);
    WrapIsInt64(a);
  }

  lemma WrapOfWrap(x: int, y: int)
    ensures Wrap(Wrap(x) + y) == Wrap(x + y)
  {
    var m, h := 0x1_0000_0000_0000_0000, 0x8000_0000_0000_0000;
    assert Wrap(x) == x - m * ((x + h) / m);
    assert (Wrap(x) + y + h) % m == (x + y + h - m * ((x + h) / m)) % m;
  }

  // ---- Rows ----

  lemma {:induction false} ExpandAppend(lang: Lang, words: FlatWords, a: seq<Token>, b: seq<Token>)
    ensures Expand(lang, words, a + b) == Expand(lang, words, a) + Expand(lang, words, b)
  {
    if a == [] {
      assert a + b == b;
    } else {
      assert (a + b)[1..] == a[1..] + b;
      ExpandAppend(lang, words, a[1..], b);
    }
  }

  /** A row does what its parts do, one after the other. */
  lemma RowsCompose(lang: Lang, words: FlatWords, a: seq<Token>, b: seq<Token>, st: Stack)
    ensures var mid := RunAtoms(lang, Expand(lang, words, a), st);
      RunAtoms(lang, Expand(lang, words, a + b), st) ==
      if mid.None? then None else RunAtoms(lang, Expand(lang, words, b), mid.value)
  {
    ExpandAppend(lang, words, a, b);
    RunAppend(lang, Expand(lang, words, a), Expand(lang, words, b), st);
  }

  /** A token runs the word it names, whatever its case, or pushes the number it spells, or fails. */
  lemma TokenMeans(lang: Lang, words: FlatWords, t: Token, st: Stack)
    ensures RunAtoms(lang, Expand(lang, words, [t]), st) ==
      if lang.lower(t) in words then RunAtoms(lang, words[lang.lower(t)], st)
      else if lang.atoi(t).Some? then Some(st + [lang.atoi(t).value])
      else None
  {
    if lang.lower(t) in words {
      assert words[lang.lower(t)] + [] == words[lang.lower(t)];
    } else {
      assert [Text(t)] + [] == [Text(t)];
      RunOne(lang, Text(t), st);
    }
  }

  /** After a definition every spelling of the name, in any case, runs the body as it was meant when defined. */
  lemma DefinedIsFound(lang: Lang, words: FlatWords, d: Definition, t: Token, st: Stack)
    requires lang.lower(t) == lang.lower(d.name)
    ensures RunAtoms(lang, Expand(lang, FlatDefine(lang, words, d), [t]), st) ==
            RunAtoms(lang, Expand(lang, words, d.body), st)
  {
    TokenMeans(lang, FlatDefine(lang, words, d), t, st);
  }
}
