/**
 * forth/eval.go: the evaluator. Stacks are slices of shared arrays, overwritten in place and copied only
 * when they outgrow their array, as the words run.
 */
module Forth {
  import opened Common
  import opened ForthMemory
  import opened ForthWords
  import Seqs

  /** append: in place if the array has room, else in a larger copy. */
  method Append(a: array<int>, n: nat, x: int) returns (b: array<int>)
    requires n <= a.Length
    modifies a
    ensures n < b.Length && b[..n + 1] == old(a[..n]) + [x]
    ensures n < a.Length ==> b == a && a[..] == old(a[..])[n := x]
    ensures n == a.Length ==> fresh(b) && a[..] == old(a[..])
  {
    if n < a.Length {
      a[n] := x;
      assert a[..n + 1] == a[..n] + [x] && a[..n] == old(a[..n]);
      return a;
    }
    b := new int[2 * n + 1];
    for i := 0 to n
      invariant a[..] == old(a[..]) && forall j :: 0 <= j < i ==> b[j] == a[j]
    {
      b[i] := a[i];
    }
    b[n] := x;
    assert b[..n] == old(a[..n]) && b[..n + 1] == b[..n] + [x];
  }

  /** A closure that takes two numbers off the stack and puts one back. */
  method Binary(p: Prim, a: array<int>, n: nat) returns (b: array<int>, m: nat, ok: bool)
    requires n <= a.Length && (p.Add? || p.Sub? || p.Mul? || p.Div?)
    modifies a
    ensures ok <==> RunPrim(p, old(a[..n])).Some?
    ensures ok ==> m <= b.Length && RunPrim(p, old(a[..n])) == Some(b[..m])
    ensures b == a || fresh(b)
    ensures var left := After(Memory(old(a[..]), true), RunPrim(p, old(a[..n])));
      a[..] == left.cells && (ok ==> (b == a <==> left.shared))
  {
    b, m, ok := a, n, false;
    if n < 2 { return; }
    var x, y := a[n - 2], a[n - 1];
    if p.Div? && y == 0 { return; }
    var r := if p.Add? then x + y else if p.Sub? then x - y else if p.Mul? then x * y else Quotient(x, y);
    assert a[..n][..n - 2] == a[..n - 2];
    b := Append(a, n - 2, Wrap(r));
    m, ok := n - 1, true;
  }

  /** The other built-in words. */
  method Shuffle(p: Prim, a: array<int>, n: nat) returns (b: array<int>, m: nat, ok: bool)
    requires n <= a.Length && (p.Dup? || p.Drop? || p.Swap? || p.Over?)
    modifies a
    ensures ok <==> RunPrim(p, old(a[..n])).Some?
    ensures ok ==> m <= b.Length && RunPrim(p, old(a[..n])) == Some(b[..m])
    ensures b == a || fresh(b)
    ensures var left := After(Memory(old(a[..]), true), RunPrim(p, old(a[..n])));
      a[..] == left.cells && (ok ==> (b == a <==> left.shared))
  {
    b, m, ok := a, n, false;
    if n < 1 || (n < 2 && (p.Swap? || p.Over?)) { return; }
    ok := true;
    if p.Dup? {
      b := Append(a, n, a[n - 1]);
      m := n + 1;
    } else if p.Over? {
      b := Append(a, n, a[n - 2]);
      m := n + 1;
    } else if p.Drop? {
      m := n - 1;
      assert a[..n][..n - 1] == a[..n - 1];
    } else {
      assert a[..n][..n - 2] == a[..n - 2];
      a[n - 1], a[n - 2] := a[n - 2], a[n - 1];
      assert a[..n] == a[..n - 2] + [a[n - 2], a[n - 1]];
    }
  }

  method Apply(p: Prim, a: array<int>, n: nat) returns (b: array<int>, m: nat, ok: bool)
    requires n <= a.Length
    modifies a
    ensures ok <==> RunPrim(p, old(a[..n])).Some?
    ensures ok ==> m <= b.Length && RunPrim(p, old(a[..n])) == Some(b[..m])
    ensures b == a || fresh(b)
    ensures var left := After(Memory(old(a[..]), true), RunPrim(p, old(a[..n])));
      a[..] == left.cells && (ok ==> (b == a <==> left.shared))
  {
    if p.Add? || p.Sub? || p.Mul? || p.Div? {
      b, m, ok := Binary(p, a, n);
    } else {
      b, m, ok := Shuffle(p, a, n);
    }
  }

  method PushLiteral(lang: Lang, t: Token, a: array<int>, n: nat) returns (b: array<int>, m: nat, ok: bool)
    requires n <= a.Length
    modifies a
    ensures ok <==> RunLiteral(lang, t, old(a[..n])).Some?
    ensures ok ==> m <= b.Length && RunLiteral(lang, t, old(a[..n])) == Some(b[..m])
    ensures b == a || fresh(b)
    ensures var left := After(Memory(old(a[..]), true), RunLiteral(lang, t, old(a[..n])));
      a[..] == left.cells && (ok ==> (b == a <==> left.shared))
  {
    var num := lang.atoi(t);
    if num.None? { return a, n, false; }
    b := Append(a, n, num.value);
    m, ok := n + 1, true;
  }

  lemma {:induction false} RunSnoc(lang: Lang, steps: seq<Step>, i: nat, st: Stack)
    requires i < |steps|
    ensures RunSteps(lang, steps[..i + 1], st) ==
            (var mid := RunSteps(lang, steps[..i], st); if mid.None? then None else RunStep(lang, steps[i], mid.value))
    decreases i
  {
    if i == 0 {
      assert steps[..1] == [steps[0]] && [steps[0]][1..] == [];
    } else {
      assert steps[..i + 1][1..] == steps[1..][..i] && steps[..i][1..] == steps[1..][..i - 1];
      var next := RunStep(lang, steps[0], st);
      if next.Some? { RunSnoc(lang, steps[1..], i - 1, next.value); }
    }
  }

  lemma {:induction false} FailedStays(lang: Lang, steps: seq<Step>, i: nat, st: Stack)
    requires i <= |steps| && RunSteps(lang, steps[..i], st).None?
    ensures RunSteps(lang, steps, st).None?
    decreases |steps| - i
  {
    if i == |steps| {
      assert steps[..i] == steps;
    } else {
      RunSnoc(lang, steps, i, st);
      FailedStays(lang, steps, i + 1, st);
    }
  }

  lemma {:induction false} FlatCut(steps: seq<Step>, i: nat)
    requires i <= |steps|
    ensures FlatSteps(steps) == FlatSteps(steps[..i]) + FlatSteps(steps[i..])
    decreases i
  {
    if i == 0 {
      assert steps[..0] == [] && steps[0..] == steps;
    } else {
      FlatCut(steps[1..], i - 1);
      assert steps[..i][1..] == steps[1..][..i - 1] && steps[1..][i - 1..] == steps[i..];
      Seqs.Assoc(FlatStep(steps[0]), FlatSteps(steps[1..][..i - 1]), FlatSteps(steps[i..]));
    }
  }

  /** One more step goes on where the steps before it stopped. */
  lemma TraceSnoc(lang: Lang, steps: seq<Step>, i: nat, st: Stack, m: Memory)
    requires i < |steps| && RunSteps(lang, steps[..i], st).Some?
    ensures Trace(lang, FlatSteps(steps[..i + 1]), st, m) ==
      Trace(lang, FlatStep(steps[i]), RunSteps(lang, steps[..i], st).value, Trace(lang, FlatSteps(steps[..i]), st, m))
  {
    FlatCut(steps[..i + 1], i);
    assert steps[..i + 1][..i] == steps[..i] && steps[..i + 1][i..] == [steps[i]];
    assert FlatSteps([steps[i]]) == FlatStep(steps[i]);
    RunStepsIsFlat(lang, steps[..i], st);
    TraceAppend(lang, FlatSteps(steps[..i]), FlatStep(steps[i]), st, m);
  }

  /** Steps after one that fails leave no trace. */
  lemma TraceStops(lang: Lang, steps: seq<Step>, i: nat, st: Stack, m: Memory)
    requires i <= |steps| && RunSteps(lang, steps[..i], st).None?
    ensures Trace(lang, FlatSteps(steps), st, m) == Trace(lang, FlatSteps(steps[..i]), st, m)
  {
    FlatCut(steps, i);
    RunStepsIsFlat(lang, steps[..i], st);
    TraceAppend(lang, FlatSteps(steps[..i]), FlatSteps(steps[i..]), st, m);
  }

  /** A wordFunc: a built-in closure, or the loop over the steps a definition captured. */
  method Call(lang: Lang, fn: Fn, a: array<int>, n: nat) returns (b: array<int>, m: nat, ok: bool)
    requires n <= a.Length
    modifies a
    ensures ok <==> Run(lang, fn, old(a[..n])).Some?
    ensures ok ==> m <= b.Length && Run(lang, fn, old(a[..n])) == Some(b[..m])
    ensures b == a || fresh(b)
    ensures var left := Trace(lang, Flat(fn), old(a[..n]), Memory(old(a[..]), true));
      a[..] == left.cells && (ok ==> (b == a <==> left.shared))
    decreases fn
  {
    match fn
    case Builtin(p) =>
      b, m, ok := Apply(p, a, n);
    case Defined(body) =>
      b, m, ok := CallSteps(lang, body, a, n);
  }

  method CallStep(lang: Lang, step: Step, a: array<int>, n: nat) returns (b: array<int>, m: nat, ok: bool)
    requires n <= a.Length
    modifies a
    ensures ok <==> RunStep(lang, step, old(a[..n])).Some?
    ensures ok ==> m <= b.Length && RunStep(lang, step, old(a[..n])) == Some(b[..m])
    ensures b == a || fresh(b)
    ensures var left := Trace(lang, FlatStep(step), old(a[..n]), Memory(old(a[..]), true));
      a[..] == left.cells && (ok ==> (b == a <==> left.shared))
    decreases step
  {
    match step
    case Captured(fn) =>
      b, m, ok := Call(lang, fn, a, n);
    case Literal(t) =>
      b, m, ok := PushLiteral(lang, t, a, n);
  }

  method CallSteps(lang: Lang, steps: seq<Step>, a: array<int>, n: nat) returns (b: array<int>, m: nat, ok: bool)
    requires n <= a.Length
    modifies a
    ensures ok <==> RunSteps(lang, steps, old(a[..n])).Some?
    ensures ok ==> m <= b.Length && RunSteps(lang, steps, old(a[..n])) == Some(b[..m])
    ensures b == a || fresh(b)
    ensures var left := Trace(lang, FlatSteps(steps), old(a[..n]), Memory(old(a[..]), true));
      a[..] == left.cells && (ok ==> (b == a <==> left.shared))
    decreases steps
  {
    b, m, ok := a, n, true;
    ghost var st, was := a[..n], Memory(a[..], true);
    for i := 0 to |steps|
      invariant ok && m <= b.Length && (b == a || fresh(b))
      invariant RunSteps(lang, steps[..i], st) == Some(b[..m])
      invariant Trace(lang, FlatSteps(steps[..i]), st, was) == Memory(a[..], b == a)
    {
      RunSnoc(lang, steps, i, st);
      TraceSnoc(lang, steps, i, st, was);
      if b != a { TraceFrozen(lang, FlatStep(steps[i]), b[..m], Memory(a[..], false)); }
      b, m, ok := CallStep(lang, steps[i], b, m);
      if !ok {
        FailedStays(lang, steps, i + 1, st);
        TraceStops(lang, steps, i + 1, st, was);
        return;
      }
    }
    assert steps[..|steps|] == steps;
  }

  /** The word a token names now, or a number. */
  method EvalToken(lang: Lang, words: Words, t: Token, a: array<int>, n: nat) returns (b: array<int>, m: nat, ok: bool)
    requires n <= a.Length
    modifies a
    ensures ok <==> RunStep(lang, Bound(lang, words, t), old(a[..n])).Some?
    ensures ok ==> m <= b.Length && RunStep(lang, Bound(lang, words, t), old(a[..n])) == Some(b[..m])
    ensures b == a || fresh(b)
    ensures var left := Trace(lang, FlatStep(Bound(lang, words, t)), old(a[..n]), Memory(old(a[..]), true));
      a[..] == left.cells && (ok ==> (b == a <==> left.shared))
  {
    var lowerT := lang.lower(t);
    if lowerT in words {
      b, m, ok := Call(lang, words[lowerT], a, n);
    } else {
      b, m, ok := PushLiteral(lang, t, a, n);
    }
  }

  /** The loop over the tokens of a row. */
  method EvalAll(lang: Lang, words: Words, tokens: seq<Token>, a: array<int>, n: nat)
    returns (b: array<int>, m: nat, ok: bool)
    requires n <= a.Length
    modifies a
    ensures ok <==> RunSteps(lang, Capture(lang, words, tokens), old(a[..n])).Some?
    ensures ok ==> m <= b.Length && RunSteps(lang, Capture(lang, words, tokens), old(a[..n])) == Some(b[..m])
    ensures b == a || fresh(b)
    ensures var left := Trace(lang, FlatSteps(Capture(lang, words, tokens)), old(a[..n]), Memory(old(a[..]), true));
      a[..] == left.cells && (ok ==> (b == a <==> left.shared))
  {
    b, m, ok := a, n, true;
    ghost var steps, st, was := Capture(lang, words, tokens), a[..n], Memory(a[..], true);
    CaptureLength(lang, words, tokens);
    for i := 0 to |tokens|
      invariant ok && m <= b.Length && (b == a || fresh(b))
      invariant RunSteps(lang, steps[..i], st) == Some(b[..m])
      invariant Trace(lang, FlatSteps(steps[..i]), st, was) == Memory(a[..], b == a)
    {
      StepOfToken(lang, words, tokens, i);
      RunSnoc(lang, steps, i, st);
      TraceSnoc(lang, steps, i, st, was);
      if b != a { TraceFrozen(lang, FlatStep(steps[i]), b[..m], Memory(a[..], false)); }
      b, m, ok := EvalToken(lang, words, tokens[i], b, m);
      if !ok {
        FailedStays(lang, steps, i + 1, st);
        TraceStops(lang, steps, i + 1, st, was);
        return;
      }
    }
    assert steps[..|tokens|] == steps;
  }

  /** A definition is a colon, a name that is no number, one or more tokens, and a semicolon. */
  predicate Defines(lang: Lang, tokens: seq<Token>, name: Token, body: seq<Token>) {
    body != [] && tokens == [Token(":"), name] + body + [Token(";")] && lang.atoi(lang.lower(name)).None?
  }

  predicate HasShape(tokens: seq<Token>) {
    |tokens| >= 4 && tokens[0] == COLON && tokens[|tokens| - 1] == SEMICOLON
  }

  /** What the tests of defineWord find out. */
  lemma ShapeOfDefinition(lang: Lang, tokens: seq<Token>)
    ensures forall name, body :: Defines(lang, tokens, name, body) ==>
      |tokens| >= 4 && tokens[|tokens| - 1] == SEMICOLON && name == tokens[1] && body == tokens[2..|tokens| - 1]
    ensures HasShape(tokens) && lang.atoi(lang.lower(tokens[1])).None? ==>
      Defines(lang, tokens, tokens[1], tokens[2..|tokens| - 1])
  {
    if HasShape(tokens) {
      assert tokens == [tokens[0], tokens[1]] + tokens[2..|tokens| - 1] + [tokens[|tokens| - 1]];
    }
    forall name, body | Defines(lang, tokens, name, body) ensures body == tokens[2..|tokens| - 1] {
      assert tokens[2..|tokens| - 1] == body;
    }
  }

  datatype Result = Ok(stack: seq<int>) | Error

  class Evaluator {
    const lang: Lang
    var words: Words
    var data: array<int>
    var size: nat

    ghost predicate Valid()
      reads this
    {
      size <= data.Length
    }

    ghost function Stack(): seq<int>
      reads this, data
      requires Valid()
    {
      data[..size]
    }

    /** NewEvaluator */
    constructor (lang: Lang)
      ensures Valid() && Stack() == [] && this.lang == lang && fresh(data)
      ensures words == map[Token("+") := Builtin(Add), Token("-") := Builtin(Sub), Token("*") := Builtin(Mul),
        Token("/") := Builtin(Div), Token("dup") := Builtin(Dup), Token("drop") := Builtin(Drop),
        Token("swap") := Builtin(Swap), Token("over") := Builtin(Over)]
    {
      this.lang := lang;
      words := map[Token("+") := Builtin(Add), Token("-") := Builtin(Sub), Token("*") := Builtin(Mul),
        Token("/") := Builtin(Div), Token("dup") := Builtin(Dup), Token("drop") := Builtin(Drop),
        Token("swap") := Builtin(Swap), Token("over") := Builtin(Over)];
      data := new int[0];
      size := 0;
    }

    ghost predicate IsDefinition(tokens: seq<Token>) { exists name, body :: Defines(lang, tokens, name, body) }

    /** The dictionary has what the definition says, meant as the words were before. */
    ghost predicate HasDefined(tokens: seq<Token>, was: FlatWords)
      reads this
    {
      forall name, body :: Defines(lang, tokens, name, body) ==>
        Flattened(words) == FlatDefine(lang, was, Definition(name, body))
    }

    /**
     * A row that starts with a colon defines a word or is refused; any other row runs the words it names.
     * A row that succeeds does what the flat programs of its words do; one that fails binds no word and
     * keeps the height of the stack, but not its entries: either way the array holds what the row wrote there.
     */
    method Process(tokens: seq<Token>) returns (r: Result)
      requires Valid()
      modifies this`words, this`data, this`size, data
      ensures Valid() && (data == old(data) || fresh(data))
      ensures tokens != [] && tokens[0] == COLON ==>
        Stack() == old(Stack()) && (r.Ok? <==> IsDefinition(tokens)) && (r.Ok? ==> r.stack == Stack())
      ensures tokens != [] && tokens[0] == COLON && r.Ok? ==> HasDefined(tokens, Flattened(old(words)))
      ensures r.Error? || tokens == [] || tokens[0] != COLON ==> words == old(words)
      ensures tokens == [] || tokens[0] != COLON ==>
        (r.Ok? <==> RunAtoms(lang, Expand(lang, Flattened(words), tokens), old(Stack())).Some?)
      ensures (tokens == [] || tokens[0] != COLON) && r.Ok? ==>
        r.stack == Stack() && RunAtoms(lang, Expand(lang, Flattened(words), tokens), old(Stack())) == Some(Stack())
      ensures r.Error? ==> size == old(size) && data == old(data)
      ensures tokens != [] && tokens[0] == COLON ==> data == old(data) && data[..] == old(data[..])
      ensures tokens == [] || tokens[0] != COLON ==>
        var left := Trace(lang, Expand(lang, Flattened(words), tokens), old(Stack()), Memory(old(data[..]), true));
        old(data)[..] == left.cells && (r.Ok? ==> (data == old(data) <==> left.shared))
    {
      if |tokens| >= 1 && tokens[0] == COLON {
        r := DefineWord(tokens);
      } else {
        r := EvalTokens(tokens);
        CaptureIsExpand(lang, words, tokens);
        RunStepsIsFlat(lang, Capture(lang, words, tokens), old(Stack()));
      }
    }

    /** Each token of a body with the word it names now. */
    method CaptureTokens(bodyTokens: seq<Token>) returns (captured: seq<Step>)
      ensures captured == Capture(lang, words, bodyTokens)
    {
      captured := [];
      for i := 0 to |bodyTokens|
        invariant i == |captured| &&
          captured + Capture(lang, words, bodyTokens[i..]) == Capture(lang, words, bodyTokens)
      {
        var t := bodyTokens[i];
        assert bodyTokens[i..][1..] == bodyTokens[i + 1..];
        var lowerT := lang.lower(t);
        var step := if lowerT in words then Captured(words[lowerT]) else Literal(t);
        assert Capture(lang, words, bodyTokens[i..]) == [step] + Capture(lang, words, bodyTokens[i + 1..]);
        Seqs.Assoc(captured, [step], Capture(lang, words, bodyTokens[i + 1..]));
        captured := captured + [step];
      }
      assert bodyTokens[|bodyTokens|..] == [];
    }

    method DefineWord(tokens: seq<Token>) returns (r: Result)
      requires Valid() && tokens != [] && tokens[0] == COLON
      modifies this`words
      ensures r.Ok? <==> IsDefinition(tokens)
      ensures r.Ok? ==> r.stack == Stack()
      ensures r.Ok? ==> HasDefined(tokens, Flattened(old(words)))
      ensures r.Error? ==> words == old(words)
    {
      ShapeOfDefinition(lang, tokens);
      if |tokens| < 4 || tokens[|tokens| - 1] != SEMICOLON { return Error; }
      var wordName := lang.lower(tokens[1]);
      if lang.atoi(wordName).Some? { return Error; }
      var bodyTokens := tokens[2..|tokens| - 1];
      var captured := CaptureTokens(bodyTokens);
      DefineIsFlat(lang, words, Definition(tokens[1], bodyTokens));
      words := words[wordName := Defined(captured)];
      return Ok(data[..size]);
    }

    method EvalTokens(tokens: seq<Token>) returns (r: Result)
      requires Valid()
      modifies this`data, this`size, data
      ensures Valid() && (data == old(data) || fresh(data))
      ensures r.Ok? <==> RunSteps(lang, Capture(lang, words, tokens), old(Stack())).Some?
      ensures r.Ok? ==>
        r.stack == Stack() && RunSteps(lang, Capture(lang, words, tokens), old(Stack())) == Some(Stack())
      ensures r.Error? ==> size == old(size) && data == old(data)
      ensures
        var left := Trace(lang, FlatSteps(Capture(lang, words, tokens)), old(Stack()), Memory(old(data[..]), true));
        old(data)[..] == left.cells && (r.Ok? ==> (data == old(data) <==> left.shared))
    {
      var a, n, ok := EvalAll(lang, words, tokens, data, size);
      if !ok { return Error; }
      data, size := a, n;
      return Ok(data[..size]);
    }
  }

  lemma {:induction false} CaptureLength(lang: Lang, words: Words, tokens: seq<Token>)
    ensures |Capture(lang, words, tokens)| == |tokens|
  {
    if tokens != [] { CaptureLength(lang, words, tokens[1..]); }
  }

  lemma {:induction false} StepOfToken(lang: Lang, words: Words, tokens: seq<Token>, i: nat)
    requires i < |tokens|
    ensures i < |Capture(lang, words, tokens)|
    ensures Capture(lang, words, tokens)[i] == Bound(lang, words, tokens[i])
  {
    if i > 0 { StepOfToken(lang, words, tokens[1..], i - 1); }
  }
}
