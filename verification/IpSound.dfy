/** Whatever the automaton accepts, the grammar derives, with the value the derivation denotes. */
module IpSound {
  import opened Seqs
  import opened IpGrammar
  import opened IpAutomaton
  import opened IpDrive

  /** The derivation behind a stack entry. */
  datatype Tree =
    | Leaf(tok: Token)
    | TermTree(term: Term)
    | SpanTree(lo: octet, hi: octet)
    | AddressTree(addr: Address)
    | TargetTree(target: Target)
    | CommaTree(spaced: bool)
    | ResultTree(result: Result)

  function YieldOf(t: Tree): seq<Token> {
    match t
    case Leaf(tok) => [tok]
    case TermTree(term) => YieldTerm(term)
    case SpanTree(lo, hi) => YieldTerm(Span(lo, hi))
    case AddressTree(a) => YieldAddress(a)
    case TargetTree(t) => YieldTarget(t)
    case CommaTree(spaced) => YieldComma(spaced)
    case ResultTree(r) => Yield(r)
  }

  function YieldAll(trees: seq<Tree>): seq<Token> {
    if trees == [] then [] else YieldAll(trees[..|trees| - 1]) + YieldOf(trees[|trees| - 1])
  }

  /** `t` derives the symbol `sym` and denotes `v`. */
  predicate Fits(sym: int, v: Value, t: Tree) {
    match t
    case Leaf(tok) => sym == tok.Kind() && sym > 0 && v == TokenValue(tok) && (tok.Punct? ==> sym != NUM)
    case TermTree(term) => sym == -3 && v == Octets(DenoteTerm(term))
    case SpanTree(lo, hi) => sym == -4 && v == Octets(OctetRange(lo, hi))
    case AddressTree(a) => sym == -1 && v == Addr(DenoteAddress(a))
    case TargetTree(t) => sym == -2 && TargetOk(t) && v == Addr(DenoteTarget(t))
    case CommaTree(_) => sym == -6 && v == Nothing
    case ResultTree(r) => sym == -5 && Ok(r) && v == Ranges(Denote(r))
  }

  ghost predicate AllFit(stack: Stack, trees: seq<Tree>)
    requires WF(stack)
  {
    |trees| == |stack| - 1 && forall i :: 0 <= i < |trees| ==> Fits(CHK[stack[i + 1].state], stack[i + 1].val, trees[i])
  }

  lemma YieldSnoc(trees: seq<Tree>, t: Tree)
    ensures YieldAll(trees + [t]) == YieldAll(trees) + YieldOf(t)
  {
  }

  lemma {:induction false} YieldConcat(a: seq<Tree>, b: seq<Tree>)
    ensures YieldAll(a + b) == YieldAll(a) + YieldAll(b)
  {
    if b == [] {
      assert a + b == a;
    } else {
      var init, last := b[..|b| - 1], b[|b| - 1];
      assert a + b == (a + init) + [last];
      assert b == init + [last];
      YieldConcat(a, init);
      YieldSnoc(a + init, last);
      YieldSnoc(init, last);
      Assoc(YieldAll(a), YieldAll(init), YieldOf(last));
    }
  }

  lemma YieldOne(a: Tree)
    ensures YieldAll([a]) == YieldOf(a)
  {
  }

  lemma YieldCons(a: Tree, b: seq<Tree>)
    ensures YieldAll([a] + b) == YieldOf(a) + YieldAll(b)
  {
    YieldOne(a);
    YieldConcat([a], b);
  }

  lemma YieldTwo(a: Tree, b: Tree)
    ensures YieldAll([a, b]) == YieldOf(a) + YieldOf(b)
  {
    assert [a, b] == [a] + [b];
    YieldOne(b);
    YieldCons(a, [b]);
  }

  lemma YieldThree(a: Tree, b: Tree, c: Tree)
    ensures YieldAll([a, b, c]) == YieldOf(a) + (YieldOf(b) + YieldOf(c))
  {
    assert [a, b, c] == [a] + [b, c];
    YieldTwo(b, c);
    YieldCons(a, [b, c]);
  }

  lemma YieldFive(a: Tree, b: Tree, c: Tree, d: Tree, e: Tree)
    ensures YieldAll([a, b, c, d, e]) == YieldOf(a) + (YieldOf(b) + (YieldOf(c) + (YieldOf(d) + YieldOf(e))))
  {
    assert [a, b, c, d, e] == [a] + [b, c, d, e] && [b, c, d, e] == [b] + [c, d, e];
    YieldThree(c, d, e);
    YieldCons(b, [c, d, e]);
    YieldCons(a, [b, c, d, e]);
  }

  lemma YieldSeven(a: Tree, b: Tree, c: Tree, d: Tree, e: Tree, f: Tree, g: Tree)
    ensures YieldAll([a, b, c, d, e, f, g]) ==
            YieldOf(a) + (YieldOf(b) + (YieldOf(c) + (YieldOf(d) + (YieldOf(e) + (YieldOf(f) + YieldOf(g))))))
  {
    assert [a, b, c, d, e, f, g] == [a] + [b, c, d, e, f, g] && [b, c, d, e, f, g] == [b] + [c, d, e, f, g];
    YieldFive(c, d, e, f, g);
    YieldCons(b, [c, d, e, f, g]);
    YieldCons(a, [b, c, d, e, f, g]);
  }

  /** The derivation that production `p` builds from those of its right-hand side. */
  function Build(p: int, ts: seq<Tree>): Tree
    requires Buildable(p, ts)
  {
    match p
    case 1 => ResultTree(One(ts[0].target))
    case 2 => ResultTree(More(ts[0].result, ts[1].spaced, ts[2].target))
    case 3 => CommaTree(false)
    case 4 => CommaTree(true)
    case 5 => TargetTree(Block(ts[0].addr, ts[2].tok.n))
    case 6 => TargetTree(Plain(ts[0].addr))
    case 7 => AddressTree(Address(ts[0].term, ts[2].term, ts[4].term, ts[6].term))
    case 8 => TermTree(Single(ts[0].tok.n))
    case 9 => TermTree(Any)
    case 10 => TermTree(Span(ts[0].lo, ts[0].hi))
    case _ => SpanTree(ts[0].tok.n, ts[2].tok.n)
  }

  predicate IsPunct(t: Tree, kind: int) { t == Leaf(Punct(kind)) }
  predicate IsNumber(t: Tree) { t.Leaf? && t.tok.Num? }

  predicate Buildable(p: int, ts: seq<Tree>) {
    1 <= p < 12 && |ts| == R2[p] &&
    match p
    case 1 => ts[0].TargetTree?
    case 2 => ts[0].ResultTree? && ts[1].CommaTree? && ts[2].TargetTree?
    case 3 => IsPunct(ts[0], COMMA)
    case 4 => IsPunct(ts[0], COMMA) && IsPunct(ts[1], SPACE)
    case 5 => ts[0].AddressTree? && IsPunct(ts[1], SLASH) && IsNumber(ts[2])
    case 6 => ts[0].AddressTree?
    case 7 => ts[0].TermTree? && IsPunct(ts[1], DOT) && ts[2].TermTree? && IsPunct(ts[3], DOT) &&
              ts[4].TermTree? && IsPunct(ts[5], DOT) && ts[6].TermTree?
    case 8 => IsNumber(ts[0])
    case 9 => IsPunct(ts[0], STAR)
    case 10 => ts[0].SpanTree?
    case _ => IsNumber(ts[0]) && IsPunct(ts[1], DASH) && IsNumber(ts[2])
  }

  lemma BuildYields(p: int, ts: seq<Tree>)
    requires Buildable(p, ts)
    ensures YieldOf(Build(p, ts)) == YieldAll(ts)
  {
    if |ts| == 1 {
      assert ts == [ts[0]];
      YieldOne(ts[0]);
    } else if |ts| == 2 {
      assert ts == [ts[0], ts[1]];
      YieldTwo(ts[0], ts[1]);
    } else if |ts| == 3 {
      TripleYields(p, ts);
    } else {
      AddressYields(ts);
    }
  }

  lemma TripleYields(p: int, ts: seq<Tree>)
    requires Buildable(p, ts) && p in {2, 5, 11}
    ensures YieldOf(Build(p, ts)) == YieldAll(ts)
  {
    assert ts == [ts[0], ts[1], ts[2]];
    YieldThree(ts[0], ts[1], ts[2]);
    if p == 5 { assert [Punct(SLASH), Num(ts[2].tok.n)] == [Punct(SLASH)] + [Num(ts[2].tok.n)]; }
  }

  lemma AddressYields(ts: seq<Tree>)
    requires Buildable(7, ts)
    ensures YieldOf(Build(7, ts)) == YieldAll(ts)
  {
    assert ts == [ts[0], ts[1], ts[2], ts[3], ts[4], ts[5], ts[6]];
    YieldSeven(ts[0], ts[1], ts[2], ts[3], ts[4], ts[5], ts[6]);
  }

  lemma ArgumentFits(stack: Stack, trees: seq<Tree>, n: nat, i: nat)
    requires WF(stack) && AllFit(stack, trees) && 1 <= n && n + i < |stack|
    ensures stack[n..][i] == stack[n + i] && Fits(CHK[stack[n + i].state], stack[n..][i].val, trees[n - 1..][i])
  {
  }

  /** The popped trees are those of a right-hand side. */
  lemma PoppedIsBuildable(stack: Stack, trees: seq<Tree>)
    requires WF(stack) && AllFit(stack, trees) && EndsProduction(Top(stack)) > 0
    ensures var p := EndsProduction(Top(stack)); |stack| > R2[p] && Buildable(p, trees[|stack| - R2[p] - 1..])
  {
    SymbolsOnTop(stack);
    var p := EndsProduction(Top(stack));
    ArgumentsFit(stack, trees, p);
    FitsIsBuildable(p, stack[|stack| - R2[p]..], trees[|stack| - R2[p] - 1..]);
  }

  lemma ArgumentsFit(stack: Stack, trees: seq<Tree>, p: int)
    requires WF(stack) && AllFit(stack, trees) && 1 <= p < 12 && |stack| > R2[p]
    requires var n := |stack| - R2[p]; forall i :: 0 <= i < R2[p] ==> CHK[stack[n + i].state] == Rhs(p)[i]
    ensures var n := |stack| - R2[p];
            forall i :: 0 <= i < R2[p] ==> Fits(Rhs(p)[i], stack[n..][i].val, trees[n - 1..][i])
  {
  }

  /** The symbols of production `p`, in order. */
  function Rhs(p: int): seq<int>
    requires 1 <= p < 12
    ensures |Rhs(p)| == R2[p]
  {
    match p
    case 1 => [-2] case 2 => [-5, -6, -2] case 3 => [COMMA] case 4 => [COMMA, SPACE] case 5 => [-1, SLASH, NUM]
    case 6 => [-1] case 7 => [-3, DOT, -3, DOT, -3, DOT, -3] case 8 => [NUM] case 9 => [STAR] case 10 => [-4]
    case _ => [NUM, DASH, NUM]
  }

  lemma SymbolsOnTopOfAddress(stack: Stack)
    requires WF(stack) && EndsProduction(Top(stack)) == 7
    ensures var n := |stack| - 7;
            n >= 1 && forall i :: 0 <= i < 7 ==> CHK[stack[n + i].state] == Rhs(7)[i]
  {
    HandleOnTop(stack);
    var n := |stack| - 7;
    assert CanPrecede(stack[n].state, stack[n + 1].state);
    assert CanPrecede(stack[n + 2].state, stack[n + 3].state);
    assert CanPrecede(stack[n + 4].state, stack[n + 5].state);
  }

  lemma SymbolsOnTop(stack: Stack)
    requires WF(stack) && EndsProduction(Top(stack)) > 0
    ensures var p := EndsProduction(Top(stack)); var n := |stack| - R2[p];
            n >= 1 && forall i :: 0 <= i < R2[p] ==> CHK[stack[n + i].state] == Rhs(p)[i]
  {
    var p := EndsProduction(Top(stack));
    if p == 7 {
      SymbolsOnTopOfAddress(stack);
    } else {
      HandleOnTop(stack);
      var n := |stack| - R2[p];
      if R2[p] > 1 { assert CanPrecede(stack[n].state, stack[n + 1].state); }
    }
  }

  lemma FitsIsBuildable(p: int, args: seq<Entry>, ts: seq<Tree>)
    requires 1 <= p < 12 && |ts| == |args| == R2[p]
    requires forall i :: 0 <= i < R2[p] ==> Fits(Rhs(p)[i], args[i].val, ts[i])
    ensures Buildable(p, ts)
  {
    if p == 7 {
      assert Fits(Rhs(7)[0], args[0].val, ts[0]) && Fits(Rhs(7)[1], args[1].val, ts[1]) &&
        Fits(Rhs(7)[2], args[2].val, ts[2]);
      assert Fits(Rhs(7)[3], args[3].val, ts[3]) && Fits(Rhs(7)[4], args[4].val, ts[4]);
      assert Fits(Rhs(7)[5], args[5].val, ts[5]) && Fits(Rhs(7)[6], args[6].val, ts[6]);
    } else {
      assert Fits(Rhs(p)[0], args[0].val, ts[0]);
      if R2[p] > 1 { assert Fits(Rhs(p)[1], args[1].val, ts[1]); }
      if R2[p] > 2 { assert Fits(Rhs(p)[2], args[2].val, ts[2]); }
    }
  }

  /** The action of production `p` computes what the built derivation denotes. */
  lemma BuildFits(stack: Stack, trees: seq<Tree>, p: int)
    requires WF(stack) && AllFit(stack, trees) && p == EndsProduction(Top(stack)) > 0
    requires |stack| > R2[p] && Handle(p, stack[|stack| - R2[p]..]) && (p == 5 ==> stack[|stack| - 1].val.n <= 32)
    ensures Buildable(p, trees[|stack| - R2[p] - 1..])
    ensures var n := |stack| - R2[p]; Fits(-R1[p], Semantic(p, stack[n..]), Build(p, trees[n - 1..]))
  {
    PoppedIsBuildable(stack, trees);
    var n := |stack| - R2[p];
    forall i | 0 <= i < R2[p]
      ensures Fits(CHK[stack[n..][i].state], stack[n..][i].val, trees[n - 1..][i])
    {
      ArgumentFits(stack, trees, n, i);
    }
  }

  // ---- Acceptance ----

  lemma ReduceTrees(stack: Stack, trees: seq<Tree>, p: int) returns (trees': seq<Tree>)
    requires WF(stack) && AllFit(stack, trees) && p == EndsProduction(Top(stack)) > 0
    requires |stack| > R2[p] && Handle(p, stack[|stack| - R2[p]..]) && (p == 5 ==> stack[|stack| - 1].val.n <= 32)
    ensures WF(Reduced(stack, p)) && AllFit(Reduced(stack, p), trees') && YieldAll(trees') == YieldAll(trees)
  {
    BuildFits(stack, trees, p);
    var n := |stack| - R2[p];
    trees' := BuildOnTop(trees, n - 1, p);
    ReducedFits(stack, trees, p, Build(p, trees[n - 1..]));
  }

  /** Building a derivation of the topmost trees keeps what they yield. */
  lemma BuildOnTop(trees: seq<Tree>, k: nat, p: int) returns (trees': seq<Tree>)
    requires k <= |trees| && Buildable(p, trees[k..])
    ensures trees' == trees[..k] + [Build(p, trees[k..])] && YieldAll(trees') == YieldAll(trees)
  {
    BuildYields(p, trees[k..]);
    ReplacePopped(trees, k, Build(p, trees[k..]));
    trees' := trees[..k] + [Build(p, trees[k..])];
  }

  lemma ReplacePopped(trees: seq<Tree>, k: nat, t: Tree)
    requires k <= |trees| && YieldOf(t) == YieldAll(trees[k..])
    ensures YieldAll(trees[..k] + [t]) == YieldAll(trees)
  {
    YieldSnoc(trees[..k], t);
    YieldConcat(trees[..k], trees[k..]);
    Cut(trees, k);
  }

  lemma ReducedFits(stack: Stack, trees: seq<Tree>, p: int, t: Tree)
    requires WF(stack) && AllFit(stack, trees) && p == EndsProduction(Top(stack)) > 0
    requires |stack| > R2[p] && Handle(p, stack[|stack| - R2[p]..]) && (p == 5 ==> stack[|stack| - 1].val.n <= 32)
    requires Fits(-R1[p], Semantic(p, stack[|stack| - R2[p]..]), t)
    ensures WF(Reduced(stack, p)) && AllFit(Reduced(stack, p), trees[..|stack| - R2[p] - 1] + [t])
  {
    HandleOnTop(stack);
    ReducedIsWF(stack, p);
    var n := |stack| - R2[p];
    GotoShape(p, stack[n - 1].state);
    var stack', trees' := Reduced(stack, p), trees[..n - 1] + [t];
    forall i | 0 <= i < |trees'| ensures Fits(CHK[stack'[i + 1].state], stack'[i + 1].val, trees'[i]) {
      if i < n - 1 {
        assert stack'[i + 1] == stack[i + 1] && trees'[i] == trees[i];
      }
    }
  }

  lemma PushedFits(stack: Stack, trees: seq<Tree>, e: Entry, t: Tree)
    requires WF(stack) && AllFit(stack, trees) && WF(stack + [e]) && 0 <= e.state < 22 && Fits(CHK[e.state], e.val, t)
    ensures AllFit(stack + [e], trees + [t])
  {
    var stack' := stack + [e];
    forall i | 0 <= i < |stack| ensures Fits(CHK[stack'[i + 1].state], stack'[i + 1].val, (trees + [t])[i]) {
      if i < |trees| { assert Fits(CHK[stack[i + 1].state], stack[i + 1].val, trees[i]); }
    }
  }

  lemma LeafYields(trees: seq<Tree>, input: seq<Token>)
    requires input != []
    ensures YieldAll(trees + [Leaf(input[0])]) + input[1..] == YieldAll(trees) + input
  {
    YieldSnoc(trees, Leaf(input[0]));
    Assoc(YieldAll(trees), [input[0]], input[1..]);
    Head(input);
  }

  lemma ShiftTree(stack: Stack, trees: seq<Tree>, input: seq<Token>) returns (trees': seq<Tree>)
    requires WF(stack) && AllFit(stack, trees) && ValidTokens(input) && Act(Top(stack), Look(input)).Shift?
    ensures input != []
    ensures var stack' := stack + [Entry(Act(Top(stack), Look(input)).state, TokenValue(input[0]))];
            WF(stack') && AllFit(stack', trees')
    ensures YieldAll(trees') + input[1..] == YieldAll(trees) + input
  {
    ShiftShape(Top(stack), Look(input));
    var t := input[0];
    ShiftedIsWF(stack, t);
    PushedFits(stack, trees, Entry(Act(Top(stack), t.Kind()).state, TokenValue(t)), Leaf(t));
    LeafYields(trees, input);
    trees' := trees + [Leaf(t)];
  }

  /** An accepted token stream has a derivation, and the output is what it denotes. */
  lemma {:induction false} Sound(stack: Stack, trees: seq<Tree>, input: seq<Token>) returns (r: Result)
    requires WF(stack) && AllFit(stack, trees) && ValidTokens(input) && Drive(stack, input).Accepted?
    ensures Ok(r) && Yield(r) == YieldAll(trees) + input && Denote(r) == Drive(stack, input).output
    decreases |input|, Level(Top(stack))
  {
    var action := Act(Top(stack), Look(input));
    ReduceShape(Top(stack), Look(input));
    if action.Shift? {
      var trees' := ShiftTree(stack, trees, input);
      r := Sound(stack + [Entry(action.state, TokenValue(input[0]))], trees', input[1..]);
    } else if action.Reduce? {
      HandleIsTyped(stack);
      ReducedIsWF(stack, action.prod);
      var trees' := ReduceTrees(stack, trees, action.prod);
      r := Sound(Reduced(stack, action.prod), trees', input);
    } else {
      assert input == [];
      All(YieldAll(trees));
      r := AcceptedTree(stack, trees);
    }
  }

  lemma AcceptedTree(stack: Stack, trees: seq<Tree>) returns (r: Result)
    requires WF(stack) && AllFit(stack, trees) && Top(stack) == 1
    ensures Ok(r) && Yield(r) == YieldAll(trees) && stack[|stack| - 1].val == Ranges(Denote(r))
  {
    assert CanPrecede(stack[|stack| - 2].state, 1);
    assert |stack| == 2;
    assert Fits(CHK[stack[1].state], stack[1].val, trees[0]);
    assert trees == [trees[0]];
    YieldOne(trees[0]);
    r := trees[0].result;
  }

  // ---- The crash ----

  /** A beginning of a target list up to a prefix length no mask exists for. */
  datatype Crash = First(addr: Address, bits: octet) | Later(r: Result, spaced: bool, addr: Address, bits: octet)

  function YieldCrash(c: Crash): seq<Token> {
    match c
    case First(a, bits) => YieldTarget(Block(a, bits))
    case Later(r, spaced, a, bits) => Yield(r) + (YieldComma(spaced) + YieldTarget(Block(a, bits)))
  }

  predicate Crashes(c: Crash) { c.bits > 32 && (c.Later? ==> Ok(c.r)) }

  /** The parser crashes only right after such a beginning. */
  lemma {:induction false} CrashSound(stack: Stack, trees: seq<Tree>, input: seq<Token>)
    returns (c: Crash, rest: seq<Token>)
    requires WF(stack) && AllFit(stack, trees) && ValidTokens(input) && Drive(stack, input).Panic?
    ensures Crashes(c) && YieldAll(trees) + input == YieldCrash(c) + rest
    decreases |input|, Level(Top(stack))
  {
    var action := Act(Top(stack), Look(input));
    ReduceShape(Top(stack), Look(input));
    if action.Shift? {
      var trees' := ShiftTree(stack, trees, input);
      c, rest := CrashSound(stack + [Entry(action.state, TokenValue(input[0]))], trees', input[1..]);
    } else {
      HandleIsTyped(stack);
      if action.prod == 5 && stack[|stack| - 1].val.n > 32 {
        c := CrashTree(stack, trees);
        rest := input;
      } else {
        ReducedIsWF(stack, action.prod);
        var trees' := ReduceTrees(stack, trees, action.prod);
        c, rest := CrashSound(Reduced(stack, action.prod), trees', input);
      }
    }
  }

  lemma CrashTree(stack: Stack, trees: seq<Tree>) returns (c: Crash)
    requires WF(stack) && AllFit(stack, trees) && Top(stack) == 15
    requires stack[|stack| - 1].val.Number? && stack[|stack| - 1].val.n > 32
    ensures Crashes(c) && YieldAll(trees) == YieldCrash(c)
  {
    HandleOnTop(stack);
    PoppedIsBuildable(stack, trees);
    var n := |stack| - 3;
    assert Fits(CHK[stack[n + 2].state], stack[n + 2].val, trees[n + 1]);
    if stack[n - 1].state == 0 {
      assert n == 1;
    } else {
      UnderTarget(stack, n, trees);
    }
    c := CrashOf(trees, n);
  }

  lemma CrashOf(trees: seq<Tree>, n: nat) returns (c: Crash)
    requires n in {1, 3} && |trees| == n + 2 && Buildable(5, trees[n - 1..]) && trees[n + 1].tok.n > 32
    requires n == 3 ==> trees[0].ResultTree? && Ok(trees[0].result) && trees[1].CommaTree?
    ensures Crashes(c) && YieldAll(trees) == YieldCrash(c)
  {
    var popped := trees[n - 1..];
    TripleYields(5, popped);
    if n == 1 {
      All(trees);
      c := First(popped[0].addr, popped[2].tok.n);
    } else {
      c := Later(trees[0].result, trees[1].spaced, popped[0].addr, popped[2].tok.n);
      YieldAfterComma(trees);
    }
  }

  lemma YieldAfterComma(trees: seq<Tree>)
    requires |trees| >= 2
    ensures YieldAll(trees) == YieldOf(trees[0]) + (YieldOf(trees[1]) + YieldAll(trees[2..]))
  {
    Head(trees);
    YieldCons(trees[0], trees[1..]);
    Head(trees[1..]);
    DropDrop(trees, 1, 1);
    YieldCons(trees[1], trees[2..]);
  }

  /** Below a target that is not the first there are the result so far and a comma. */
  lemma UnderTarget(stack: Stack, n: nat, trees: seq<Tree>)
    requires WF(stack) && AllFit(stack, trees) && 0 < n <= |stack| && stack[n - 1].state == 8
    ensures n == 3 && trees[0].ResultTree? && Ok(trees[0].result) && trees[1].CommaTree?
  {
    assert CanPrecede(stack[n - 2].state, 8);
    assert CanPrecede(stack[n - 3].state, 1);
    assert n == 3;
    assert Fits(CHK[stack[1].state], stack[1].val, trees[0]) && Fits(CHK[stack[2].state], stack[2].val, trees[1]);
  }
}
