/** forth/eval.go: what words mean on a stack of int64 numbers, and that they are bound when defined. */
module ForthWords {
  import opened Common

  datatype Token = Token(text: string)

  const COLON := Token(":")
  const SEMICOLON := Token(";")

  datatype Prim = Add | Sub | Mul | Div | Dup | Drop | Swap | Over

  /** A word is built in, or the steps captured when it was defined. */
  datatype Fn = Builtin(p: Prim) | Defined(body: seq<Step>)

  /** A token of a definition: the word it named at that time, or a text to be read as a number when it runs. */
  datatype Step = Captured(fn: Fn) | Literal(t: Token)

  type Stack = seq<int>

  /** Division that truncates towards zero, as Go's. */
  function Quotient(a: int, b: int): int
    requires b != 0
  {
    if (a >= 0) == (b > 0) then Abs(a) / Abs(b) else -(Abs(a) / Abs(b))
  }

  function Abs(a: int): nat { if a >= 0 then a else -a }

  lemma DivMod(x: nat, y: nat)
    requires y > 0
    ensures (x / y) * y <= x < (x / y) * y + y
  {
  }

  /** Truncation: the quotient times the divisor misses the dividend by less than the divisor, on the side of zero. */
  lemma QuotientTruncates(a: int, b: int)
    requires b != 0
    ensures Abs(a - Quotient(a, b) * b) < Abs(b) && Abs(Quotient(a, b) * b) <= Abs(a)
    ensures a >= 0 ==> Quotient(a, b) * b >= 0
    ensures a <= 0 ==> Quotient(a, b) * b <= 0
  {
    DivMod(Abs(a), Abs(b));
    QuotientProduct(a, b, Abs(a) / Abs(b));
  }

  lemma QuotientProduct(a: int, b: int, q: nat)
    requires b != 0 && q == Abs(a) / Abs(b)
    ensures Quotient(a, b) * b == if a >= 0 then q * Abs(b) else -(q * Abs(b))
    ensures q * Abs(b) >= 0
  {
  }

  function RunPrim(p: Prim, st: Stack): Option<Stack> {
    var n := |st|;
    match p
    case Add => if n < 2 then None else Some(st[..n - 2] + [Wrap(st[n - 2] + st[n - 1])])
    case Sub => if n < 2 then None else Some(st[..n - 2] + [Wrap(st[n - 2] - st[n - 1])])
    case Mul => if n < 2 then None else Some(st[..n - 2] + [Wrap(st[n - 2] * st[n - 1])])
    case Div =>
      if n < 2 || st[n - 1] == 0 then None else Some(st[..n - 2] + [Wrap(Quotient(st[n - 2], st[n - 1]))])
    case Dup => if n < 1 then None else Some(st + [st[n - 1]])
    case Drop => if n < 1 then None else Some(st[..n - 1])
    case Swap => if n < 2 then None else Some(st[..n - 2] + [st[n - 1], st[n - 2]])
    case Over => if n < 2 then None else Some(st + [st[n - 2]])
  }

  /** strconv.Atoi and strings.ToLower are parameters of the language. */
  datatype Lang = Lang(atoi: Token -> Option<int>, lower: Token -> Token)

  function RunLiteral(lang: Lang, t: Token, st: Stack): Option<Stack> {
    var n := lang.atoi(t);
    if n.Some? then Some(st + [n.value]) else None
  }

  function Run(lang: Lang, fn: Fn, st: Stack): Option<Stack>
    decreases fn
  {
    match fn
    case Builtin(p) => RunPrim(p, st)
    case Defined(body) => RunSteps(lang, body, st)
  }

  function RunStep(lang: Lang, step: Step, st: Stack): Option<Stack>
    decreases step
  {
    match step
    case Captured(fn) => Run(lang, fn, st)
    case Literal(t) => RunLiteral(lang, t, st)
  }

  function RunSteps(lang: Lang, steps: seq<Step>, st: Stack): Option<Stack>
    decreases steps
  {
    if steps == [] then Some(st)
    else
      var next := RunStep(lang, steps[0], st);
      if next.None? then None else RunSteps(lang, steps[1..], next.value)
  }

  // ---- The dictionary ----

  type Words = map<Token, Fn>

  function Bound(lang: Lang, words: Words, t: Token): Step {
    if lang.lower(t) in words then Captured(words[lang.lower(t)]) else Literal(t)
  }

  /** Each token bound to what the dictionary holds now. */
  function Capture(lang: Lang, words: Words, tokens: seq<Token>): seq<Step> {
    if tokens == [] then [] else [Bound(lang, words, tokens[0])] + Capture(lang, words, tokens[1..])
  }

  datatype Definition = Definition(name: Token, body: seq<Token>)

  function Define(lang: Lang, words: Words, d: Definition): Words {
    words[lang.lower(d.name) := Defined(Capture(lang, words, d.body))]
  }

  function DefineAll(lang: Lang, words: Words, ds: seq<Definition>): Words
    decreases ds
  {
    if ds == [] then words else DefineAll(lang, Define(lang, words, ds[0]), ds[1..])
  }

  // ---- Flat programs ----

  /** What is left of a word when every defined word in it is replaced by its definition. */
  datatype Atom = Op(p: Prim) | Text(t: Token)

  function RunAtom(lang: Lang, a: Atom, st: Stack): Option<Stack> {
    match a
    case Op(p) => RunPrim(p, st)
    case Text(t) => RunLiteral(lang, t, st)
  }

  function RunAtoms(lang: Lang, atoms: seq<Atom>, st: Stack): Option<Stack> {
    if atoms == [] then Some(st)
    else
      var next := RunAtom(lang, atoms[0], st);
      if next.None? then None else RunAtoms(lang, atoms[1..], next.value)
  }

  function Flat(fn: Fn): seq<Atom>
    decreases fn
  {
    match fn
    case Builtin(p) => [Op(p)]
    case Defined(body) => FlatSteps(body)
  }

  function FlatStep(step: Step): seq<Atom>
    decreases step
  {
    match step
    case Captured(fn) => Flat(fn)
    case Literal(t) => [Text(t)]
  }

  function FlatSteps(steps: seq<Step>): seq<Atom>
    decreases steps
  {
    if steps == [] then [] else FlatStep(steps[0]) + FlatSteps(steps[1..])
  }

  lemma {:induction false} RunAppend(lang: Lang, a: seq<Atom>, b: seq<Atom>, st: Stack)
    ensures RunAtoms(lang, a + b, st) ==
            (var mid := RunAtoms(lang, a, st); if mid.None? then None else RunAtoms(lang, b, mid.value))
  {
    if a == [] {
      assert a + b == b;
    } else {
      assert (a + b)[1..] == a[1..] + b;
      var next := RunAtom(lang, a[0], st);
      if next.Some? { RunAppend(lang, a[1..], b, next.value); }
    }
  }

  lemma RunOne(lang: Lang, a: Atom, st: Stack)
    ensures RunAtoms(lang, [a], st) == RunAtom(lang, a, st)
  {
  }

  /** Running a word is running its flat program of primitives and literals. */
  lemma {:induction false} RunIsFlat(lang: Lang, fn: Fn, st: Stack)
    ensures Run(lang, fn, st) == RunAtoms(lang, Flat(fn), st)
    decreases fn
  {
    match fn
    case Builtin(p) => RunOne(lang, Op(p), st);
    case Defined(body) => RunStepsIsFlat(lang, body, st);
  }

  lemma {:induction false} RunStepIsFlat(lang: Lang, step: Step, st: Stack)
    ensures RunStep(lang, step, st) == RunAtoms(lang, FlatStep(step), st)
    decreases step
  {
    match step
    case Captured(fn) => RunIsFlat(lang, fn, st);
    case Literal(t) => RunOne(lang, Text(t), st);
  }

  lemma {:induction false} RunStepsIsFlat(lang: Lang, steps: seq<Step>, st: Stack)
    ensures RunSteps(lang, steps, st) == RunAtoms(lang, FlatSteps(steps), st)
    decreases steps
  {
    if steps != [] {
      RunStepIsFlat(lang, steps[0], st);
      RunAppend(lang, FlatStep(steps[0]), FlatSteps(steps[1..]), st);
      var next := RunStep(lang, steps[0], st);
      if next.Some? { RunStepsIsFlat(lang, steps[1..], next.value); }
    }
  }

  // ---- A dictionary of flat programs ----

  type FlatWords = map<Token, seq<Atom>>

  function Flattened(words: Words): FlatWords { map k | k in words :: Flat(words[k]) }

  /** Each token replaced by the flat program the dictionary holds now. */
  function Expand(lang: Lang, words: FlatWords, tokens: seq<Token>): seq<Atom> {
    if tokens == [] then []
    else
      var t := lang.lower(tokens[0]);
      (if t in words then words[t] else [Text(tokens[0])]) + Expand(lang, words, tokens[1..])
  }

  function FlatDefine(lang: Lang, words: FlatWords, d: Definition): FlatWords {
    words[lang.lower(d.name) := Expand(lang, words, d.body)]
  }

  function FlatDefineAll(lang: Lang, words: FlatWords, ds: seq<Definition>): FlatWords
    decreases ds
  {
    if ds == [] then words else FlatDefineAll(lang, FlatDefine(lang, words, ds[0]), ds[1..])
  }

  lemma {:induction false} CaptureIsExpand(lang: Lang, words: Words, tokens: seq<Token>)
    ensures FlatSteps(Capture(lang, words, tokens)) == Expand(lang, Flattened(words), tokens)
  {
    if tokens != [] {
      CaptureIsExpand(lang, words, tokens[1..]);
      var steps := Capture(lang, words, tokens);
      assert steps[1..] == Capture(lang, words, tokens[1..]);
    }
  }

  /** A definition fixes its word's flat program from the words as they are, an older word of the same name included. */
  lemma DefineIsFlat(lang: Lang, words: Words, d: Definition)
    ensures Flattened(Define(lang, words, d)) == FlatDefine(lang, Flattened(words), d)
  {
    CaptureIsExpand(lang, words, d.body);
  }

  /**
   * For every history of definitions, every row of words means the flat program put together from what
   * each definition fixed at its time.
   */
  lemma {:induction false} HistoryIsFlat(lang: Lang, words: Words, ds: seq<Definition>, row: seq<Token>, st: Stack)
    ensures Flattened(DefineAll(lang, words, ds)) == FlatDefineAll(lang, Flattened(words), ds)
    ensures RunSteps(lang, Capture(lang, DefineAll(lang, words, ds), row), st) ==
            RunAtoms(lang, Expand(lang, FlatDefineAll(lang, Flattened(words), ds), row), st)
    decreases ds
  {
    if ds == [] {
      CaptureIsExpand(lang, words, row);
      RunStepsIsFlat(lang, Capture(lang, words, row), st);
    } else {
      DefineIsFlat(lang, words, ds[0]);
      HistoryIsFlat(lang, Define(lang, words, ds[0]), ds[1..], row, st);
    }
  }

  /** Definitions of other names, of words it uses among them, never change what a word does. */
  lemma {:induction false} LaterDefinitionsDoNotMatter(lang: Lang, words: Words, ds: seq<Definition>, name: Token)
    requires name in words && forall d :: d in ds ==> lang.lower(d.name) != name
    ensures name in DefineAll(lang, words, ds) && DefineAll(lang, words, ds)[name] == words[name]
    decreases ds
  {
    if ds != [] {
      assert ds[0] in ds;
      LaterDefinitionsDoNotMatter(lang, Define(lang, words, ds[0]), ds[1..], name);
    }
  }

  /** The new word runs its body in the dictionary as it was: its own name in the body means the older word. */
  lemma SelfReferenceIsOlder(lang: Lang, words: Words, d: Definition, st: Stack)
    ensures Run(lang, Define(lang, words, d)[lang.lower(d.name)], st) ==
            RunAtoms(lang, Expand(lang, Flattened(words), d.body), st)
  {
    CaptureIsExpand(lang, words, d.body);
    RunStepsIsFlat(lang, Capture(lang, words, d.body), st);
  }
}
