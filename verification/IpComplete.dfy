/** Whatever the grammar derives, the automaton accepts, with the value the derivation denotes. */
module IpComplete {
  import opened Seqs
  import opened IpGrammar
  import opened IpAutomaton
  import opened IpDrive

  predicate TermMayFollow(state: int) { state in {0, 8, 11, 18, 20} }

  /** The state after a term. */
  function TermState(below: int): int {
    if below in {0, 8} then 4 else if below == 11 then 16 else if below == 18 then 19 else 21
  }

  lemma TermReduces(kind: int)
    requires 1 <= kind <= 10
    ensures Act(5, DASH) == Shift(12) && Act(12, NUM) == Shift(17)
    ensures kind != DASH ==> Act(5, kind) == Reduce(8)
    ensures Act(6, kind) == Reduce(9) && Act(7, kind) == Reduce(10) && Act(17, kind) == Reduce(11)
  {
  }

  lemma TermGotos(below: int)
    requires TermMayFollow(below)
    ensures Goto(8, below) == Goto(9, below) == Goto(10, below) == TermState(below) && Goto(11, below) == 7
  {
  }

  lemma TermShifts(below: int)
    requires TermMayFollow(below)
    ensures Act(below, NUM) == Shift(5) && Act(below, STAR) == Shift(6)
  {
  }

  lemma TermActs(below: int)
    requires TermMayFollow(below)
    ensures Act(below, NUM) == Shift(5) && Act(below, STAR) == Shift(6)
    ensures Goto(8, below) == Goto(9, below) == Goto(10, below) == TermState(below) && Goto(11, below) == 7
  {
    TermShifts(below);
    TermGotos(below);
  }

  lemma DotActs()
    ensures Act(4, DOT) == Shift(11) && Act(16, DOT) == Shift(18) && Act(19, DOT) == Shift(20)
    ensures Act(3, SLASH) == Shift(10) && Act(10, NUM) == Shift(15)
  {
  }

  lemma AddressReduces(base: int, kind: int)
    requires base in {0, 8} && 1 <= kind <= 10
    ensures Act(21, kind) == Reduce(7) && Goto(7, base) == 3
    ensures kind != SLASH ==> Act(3, kind) == Reduce(6)
  {
  }

  lemma AddressActs(base: int, kind: int)
    requires base in {0, 8} && 1 <= kind <= 10
    ensures Act(4, DOT) == Shift(11) && Act(16, DOT) == Shift(18) && Act(19, DOT) == Shift(20)
    ensures Act(21, kind) == Reduce(7) && Goto(7, base) == 3
    ensures Act(3, SLASH) == Shift(10) && Act(10, NUM) == Shift(15) && Act(15, kind) == Reduce(5)
    ensures kind != SLASH ==> Act(3, kind) == Reduce(6)
    ensures Goto(5, base) == Goto(6, base) == if base == 0 then 2 else 13
  {
    DotActs();
    AddressReduces(base, kind);
  }

  lemma ResultActs(kind: int)
    requires 1 <= kind <= 10
    ensures Act(2, kind) == Reduce(1) && Act(13, kind) == Reduce(2) && Goto(1, 0) == Goto(2, 0) == 1
    ensures Act(1, END) == Accept
  {
  }

  lemma CommaReduces(kind: int)
    requires 1 <= kind <= 10
    ensures Act(14, kind) == Reduce(4) && (kind != SPACE ==> Act(9, kind) == Reduce(3))
  {
  }

  lemma CommaActs(kind: int)
    requires 1 <= kind <= 10
    ensures Act(1, COMMA) == Shift(9) && Act(9, SPACE) == Shift(14) && Act(14, kind) == Reduce(4)
    ensures kind != SPACE ==> Act(9, kind) == Reduce(3)
    ensures Goto(3, 1) == Goto(4, 1) == 8
  {
    CommaReduces(kind);
  }

  lemma LookRange(input: seq<Token>)
    requires ValidTokens(input)
    ensures 1 <= Look(input) <= 10
  {
  }

  lemma DriveShift(stack: Stack, t: Token, rest: seq<Token>, state: int)
    requires WF(stack) && ValidTokens([t]) && ValidTokens(rest) && Act(Top(stack), t.Kind()) == Shift(state)
    ensures WF(stack + [Entry(state, TokenValue(t))]) && ValidTokens([t] + rest)
    ensures Drive(stack, [t] + rest) == Drive(stack + [Entry(state, TokenValue(t))], rest)
  {
    ShiftedIsWF(stack, t);
    ValidConcat([t], rest);
    assert ([t] + rest)[1..] == rest;
  }

  lemma DriveShiftTwo(stack: Stack, t: Token, u: Token, rest: seq<Token>, mid: int, state: int)
    requires WF(stack) && ValidTokens([t]) && ValidTokens([u]) && ValidTokens(rest)
    requires Act(Top(stack), t.Kind()) == Shift(mid) && 0 <= mid < 22 && Act(mid, u.Kind()) == Shift(state)
    ensures var two := stack + [Entry(mid, TokenValue(t)), Entry(state, TokenValue(u))];
            WF(two) && ValidTokens([t, u] + rest) && Drive(stack, [t, u] + rest) == Drive(two, rest)
  {
    ValidConcat([u], rest);
    DriveShift(stack, t, [u] + rest, mid);
    DriveShift(stack + [Entry(mid, TokenValue(t))], u, rest, state);
    Two(t, u, rest);
    Push2(stack, Entry(mid, TokenValue(t)), Entry(state, TokenValue(u)));
  }

  lemma ValidConcat(a: seq<Token>, b: seq<Token>)
    requires ValidTokens(a) && ValidTokens(b)
    ensures ValidTokens(a + b)
  {
  }

  lemma DriveReduce(stack: Stack, input: seq<Token>, p: int)
    requires WF(stack) && ValidTokens(input) && Act(Top(stack), Look(input)) == Reduce(p)
    requires p == 5 ==> stack[|stack| - 1].val.Number? && stack[|stack| - 1].val.n <= 32
    ensures p == EndsProduction(Top(stack)) > 0 && |stack| > R2[p] && Handle(p, stack[|stack| - R2[p]..])
    ensures WF(Reduced(stack, p)) && Drive(stack, input) == Drive(Reduced(stack, p), input)
  {
    LookRange(input);
    ReduceShape(Top(stack), Look(input));
    HandleIsTyped(stack);
    ReducedIsWF(stack, p);
  }

  /** Reducing the entries `args` above `base`. */
  lemma ReducedAbove(base: Stack, args: seq<Entry>, p: int)
    requires base != [] && WF(base + args) && p == EndsProduction(Top(base + args)) > 0 && |args| == R2[p]
    requires Handle(p, args) && (p == 5 ==> args[2].val.n <= 32)
    requires 0 <= base[|base| - 1].state < 22
    ensures (base + args)[|base|..] == args
    ensures Reduced(base + args, p) == base + [Entry(Goto(p, base[|base| - 1].state), Semantic(p, args))]
  {
  }

  lemma RunTerm(base: Stack, t: Term, rest: seq<Token>)
    requires WF(base) && TermMayFollow(Top(base)) && ValidTokens(rest) && Look(rest) != DASH
    ensures ValidTokens(YieldTerm(t) + rest)
    ensures var after := base + [Entry(TermState(Top(base)), Octets(DenoteTerm(t)))];
            WF(after) && Drive(base, YieldTerm(t) + rest) == Drive(after, rest)
  {
    var below := Top(base);
    LookRange(rest);
    TermActs(below);
    TermReduces(Look(rest));
    match t
    case Single(n) =>
      DriveShift(base, Num(n), rest, 5);
      var five := [Entry(5, Number(n))];
      DriveReduce(base + five, rest, 8);
      ReducedAbove(base, five, 8);
    case Any =>
      DriveShift(base, Punct(STAR), rest, 6);
      var six := [Entry(6, Nothing)];
      DriveReduce(base + six, rest, 9);
      ReducedAbove(base, six, 9);
    case Span(lo, hi) =>
      RunSpan(base, lo, hi, rest);
  }

  lemma RunSpan(base: Stack, lo: octet, hi: octet, rest: seq<Token>)
    requires WF(base) && TermMayFollow(Top(base)) && ValidTokens(rest)
    ensures ValidTokens(YieldTerm(Span(lo, hi)) + rest)
    ensures var after := base + [Entry(TermState(Top(base)), Octets(OctetRange(lo, hi)))];
            WF(after) && Drive(base, YieldTerm(Span(lo, hi)) + rest) == Drive(after, rest)
  {
    ShiftSpan(base, lo, hi, rest);
    ReduceSpan(base, lo, hi, rest);
  }

  function SpanEntries(lo: octet, hi: octet): seq<Entry> {
    [Entry(5, Number(lo)), Entry(12, Nothing), Entry(17, Number(hi))]
  }

  lemma ShiftSpan(base: Stack, lo: octet, hi: octet, rest: seq<Token>)
    requires WF(base) && TermMayFollow(Top(base)) && ValidTokens(rest)
    ensures ValidTokens(YieldTerm(Span(lo, hi)) + rest) && WF(base + SpanEntries(lo, hi))
    ensures Drive(base, YieldTerm(Span(lo, hi)) + rest) == Drive(base + SpanEntries(lo, hi), rest)
  {
    TermActs(Top(base));
    TermReduces(DASH);
    var more := [Punct(DASH), Num(hi)];
    ValidConcat(more, rest);
    DriveShift(base, Num(lo), more + rest, 5);
    DriveShiftTwo(base + [Entry(5, Number(lo))], Punct(DASH), Num(hi), rest, 12, 17);
    SpanPieces(base, lo, hi, rest);
  }

  lemma SpanPieces(base: Stack, lo: octet, hi: octet, rest: seq<Token>)
    ensures YieldTerm(Span(lo, hi)) + rest == [Num(lo)] + ([Punct(DASH), Num(hi)] + rest)
    ensures base + SpanEntries(lo, hi) == base + [Entry(5, Number(lo))] + [Entry(12, Nothing), Entry(17, Number(hi))]
  {
    OneTwo(Num(lo), Punct(DASH), Num(hi));
    OneTwo(Entry(5, Number(lo)), Entry(12, Nothing), Entry(17, Number(hi)));
    Assoc([Num(lo)], [Punct(DASH), Num(hi)], rest);
    Assoc(base, [Entry(5, Number(lo))], [Entry(12, Nothing), Entry(17, Number(hi))]);
  }

  lemma ReduceSpan(base: Stack, lo: octet, hi: octet, rest: seq<Token>)
    requires WF(base) && TermMayFollow(Top(base)) && ValidTokens(rest) && WF(base + SpanEntries(lo, hi))
    ensures var after := base + [Entry(TermState(Top(base)), Octets(OctetRange(lo, hi)))];
            WF(after) && Drive(base + SpanEntries(lo, hi), rest) == Drive(after, rest)
  {
    LookRange(rest);
    TermActs(Top(base));
    TermReduces(Look(rest));
    DriveReduce(base + SpanEntries(lo, hi), rest, 11);
    ReducedAbove(base, SpanEntries(lo, hi), 11);
    var seven := [Entry(7, Octets(OctetRange(lo, hi)))];
    DriveReduce(base + seven, rest, 10);
    ReducedAbove(base, seven, 10);
  }

  function TermEntry(below: int, t: Term): Entry { Entry(TermState(below), Octets(DenoteTerm(t))) }

  /** A term followed by a dot. */
  lemma RunTermDot(base: Stack, t: Term, rest: seq<Token>, state: int)
    requires WF(base) && TermMayFollow(Top(base)) && ValidTokens(rest)
    requires Act(TermState(Top(base)), DOT) == Shift(state)
    ensures ValidTokens(YieldTerm(t) + ([Punct(DOT)] + rest))
    ensures var after := base + [TermEntry(Top(base), t), Entry(state, Nothing)];
            WF(after) && Drive(base, YieldTerm(t) + ([Punct(DOT)] + rest)) == Drive(after, rest)
  {
    ValidConcat([Punct(DOT)], rest);
    RunTerm(base, t, [Punct(DOT)] + rest);
    var mid := base + [TermEntry(Top(base), t)];
    DriveShift(mid, Punct(DOT), rest, state);
    Push2(base, TermEntry(Top(base), t), Entry(state, Nothing));
  }

  /** The entries of an address up to its first, second and third dot, and of a whole address. */
  function Dotted(base: int, a: Address, n: nat): seq<Entry>
    requires 1 <= n <= 4
  {
    if n == 1 then [TermEntry(base, a.a), Entry(11, Nothing)]
    else if n == 2 then Dotted(base, a, 1) + [TermEntry(11, a.b), Entry(18, Nothing)]
    else if n == 3 then Dotted(base, a, 2) + [TermEntry(18, a.c), Entry(20, Nothing)]
    else Dotted(base, a, 3) + [TermEntry(20, a.d)]
  }

  lemma DottedIsHandle(base: int, a: Address)
    ensures var d := Dotted(base, a, 4);
            |d| == 7 && Handle(7, d) && Semantic(7, d) == Addr(DenoteAddress(a)) && d[6] == TermEntry(20, a.d)
  {
    assert Dotted(base, a, 1)[0] == TermEntry(base, a.a);
    assert Dotted(base, a, 2)[2] == TermEntry(11, a.b);
    assert Dotted(base, a, 3)[4] == TermEntry(18, a.c);
  }

  function YieldFrom(a: Address, n: nat): seq<Token>
    requires n <= 3
    decreases 3 - n
  {
    if n == 3 then YieldTerm(a.d)
    else if n == 2 then YieldTerm(a.c) + ([Punct(DOT)] + YieldFrom(a, 3))
    else if n == 1 then YieldTerm(a.b) + ([Punct(DOT)] + YieldFrom(a, 2))
    else YieldTerm(a.a) + ([Punct(DOT)] + YieldFrom(a, 1))
  }

  lemma DotAssoc(t: seq<Token>, more: seq<Token>, rest: seq<Token>)
    ensures (t + ([Punct(DOT)] + more)) + rest == t + ([Punct(DOT)] + (more + rest))
  {
  }

  /** The four terms of an address, up to the reduction. */
  lemma ShiftAddress(base: Stack, a: Address, rest: seq<Token>)
    requires WF(base) && Top(base) in {0, 8} && ValidTokens(rest) && Look(rest) != DASH
    ensures ValidTokens(YieldAddress(a) + rest) && WF(base + Dotted(Top(base), a, 4))
    ensures Drive(base, YieldAddress(a) + rest) == Drive(base + Dotted(Top(base), a, 4), rest)
  {
    var b := Top(base);
    AddressActs(b, DOT);
    ValidAddress(a, rest);
    var r2, r1 := YieldFrom(a, 2) + rest, YieldFrom(a, 1) + rest;
    DotAssoc(YieldTerm(a.a), YieldFrom(a, 1), rest);
    RunTermDot(base, a.a, r1, 11);
    ShiftSecond(base, a, rest);
    ShiftRest(base, a, rest);
  }

  lemma ShiftSecond(base: Stack, a: Address, rest: seq<Token>)
    requires WF(base) && Top(base) in {0, 8} && ValidTokens(rest) && WF(base + Dotted(Top(base), a, 1))
    ensures ValidTokens(YieldFrom(a, 1) + rest) && ValidTokens(YieldFrom(a, 2) + rest) &&
      WF(base + Dotted(Top(base), a, 2))
    ensures Drive(base + Dotted(Top(base), a, 1), YieldFrom(a, 1) + rest) ==
            Drive(base + Dotted(Top(base), a, 2), YieldFrom(a, 2) + rest)
  {
    AddressActs(Top(base), DOT);
    ValidAddress(a, rest);
    DotAssoc(YieldTerm(a.b), YieldFrom(a, 2), rest);
    RunTermDot(base + Dotted(Top(base), a, 1), a.b, YieldFrom(a, 2) + rest, 18);
    Assoc(base, Dotted(Top(base), a, 1), [TermEntry(11, a.b), Entry(18, Nothing)]);
  }

  lemma ShiftThird(base: Stack, a: Address, rest: seq<Token>)
    requires WF(base) && Top(base) in {0, 8} && ValidTokens(rest) && WF(base + Dotted(Top(base), a, 2))
    ensures ValidTokens(YieldFrom(a, 2) + rest) && ValidTokens(YieldFrom(a, 3) + rest) &&
      WF(base + Dotted(Top(base), a, 3))
    ensures Drive(base + Dotted(Top(base), a, 2), YieldFrom(a, 2) + rest) ==
            Drive(base + Dotted(Top(base), a, 3), YieldFrom(a, 3) + rest)
  {
    AddressActs(Top(base), DOT);
    ValidAddress(a, rest);
    DotAssoc(YieldTerm(a.c), YieldFrom(a, 3), rest);
    RunTermDot(base + Dotted(Top(base), a, 2), a.c, YieldFrom(a, 3) + rest, 20);
    Assoc(base, Dotted(Top(base), a, 2), [TermEntry(18, a.c), Entry(20, Nothing)]);
  }

  lemma ShiftRest(base: Stack, a: Address, rest: seq<Token>)
    requires WF(base) && Top(base) in {0, 8} && ValidTokens(rest) && Look(rest) != DASH &&
      WF(base + Dotted(Top(base), a, 2))
    ensures ValidTokens(YieldFrom(a, 2) + rest) && WF(base + Dotted(Top(base), a, 4))
    ensures Drive(base + Dotted(Top(base), a, 2), YieldFrom(a, 2) + rest) == Drive(base + Dotted(Top(base), a, 4), rest)
  {
    ShiftThird(base, a, rest);
    RunTerm(base + Dotted(Top(base), a, 3), a.d, rest);
    Assoc(base, Dotted(Top(base), a, 3), [TermEntry(20, a.d)]);
  }

  lemma ValidTerm(t: Term)
    ensures ValidTokens(YieldTerm(t))
  {
  }

  lemma ValidJoin(x: seq<Token>, y: seq<Token>)
    requires ValidTokens(x) && ValidTokens(y)
    ensures ValidTokens(x + y)
  {
  }

  lemma ValidFrom(a: Address, n: nat)
    requires n <= 3
    ensures ValidTokens(YieldFrom(a, n))
    decreases 3 - n
  {
    var t := if n == 3 then a.d else if n == 2 then a.c else if n == 1 then a.b else a.a;
    ValidTerm(t);
    if n < 3 {
      ValidFrom(a, n + 1);
      ValidJoin([Punct(DOT)], YieldFrom(a, n + 1));
      ValidJoin(YieldTerm(t), [Punct(DOT)] + YieldFrom(a, n + 1));
    }
  }

  lemma FromIsAddress(a: Address)
    ensures YieldFrom(a, 0) == YieldAddress(a)
  {
  }

  lemma ValidAddress(a: Address, rest: seq<Token>)
    requires ValidTokens(rest)
    ensures ValidTokens(YieldFrom(a, 3) + rest) && ValidTokens(YieldFrom(a, 2) + rest) &&
      ValidTokens(YieldFrom(a, 1) + rest)
    ensures ValidTokens(YieldAddress(a)) && ValidTokens(YieldAddress(a) + rest) && YieldFrom(a, 0) == YieldAddress(a)
  {
    FromIsAddress(a);
    forall n: nat | n <= 3 ensures ValidTokens(YieldFrom(a, n) + rest) && ValidTokens(YieldFrom(a, n)) {
      ValidFrom(a, n);
      ValidJoin(YieldFrom(a, n), rest);
    }
  }

  lemma RunAddress(base: Stack, a: Address, rest: seq<Token>)
    requires WF(base) && Top(base) in {0, 8} && ValidTokens(rest) && Look(rest) != DASH
    ensures ValidTokens(YieldAddress(a) + rest)
    ensures var after := base + [Entry(3, Addr(DenoteAddress(a)))];
            WF(after) && Drive(base, YieldAddress(a) + rest) == Drive(after, rest)
  {
    LookRange(rest);
    AddressActs(Top(base), Look(rest));
    ShiftAddress(base, a, rest);
    var args := Dotted(Top(base), a, 4);
    DottedIsHandle(Top(base), a);
    DriveReduce(base + args, rest, 7);
    ReducedAbove(base, args, 7);
  }

  /** The state after a target. */
  function TargetState(below: int): int { if below == 0 then 2 else 13 }

  lemma RunTarget(base: Stack, t: Target, rest: seq<Token>)
    requires WF(base) && Top(base) in {0, 8} && ValidTokens(rest) && Look(rest) != DASH && Look(rest) != SLASH
    requires TargetOk(t)
    ensures ValidTokens(YieldTarget(t) + rest)
    ensures var after := base + [Entry(TargetState(Top(base)), Addr(DenoteTarget(t)))];
            WF(after) && Drive(base, YieldTarget(t) + rest) == Drive(after, rest)
  {
    LookRange(rest);
    AddressActs(Top(base), Look(rest));
    if t.Plain? {
      RunAddress(base, t.addr, rest);
      var three := [Entry(3, Addr(DenoteAddress(t.addr)))];
      DriveReduce(base + three, rest, 6);
      ReducedAbove(base, three, 6);
    } else {
      ShiftBlock(base, t, rest);
      DriveReduce(base + BlockEntries(t), rest, 5);
      ReducedAbove(base, BlockEntries(t), 5);
    }
  }

  function BlockEntries(t: Target): seq<Entry>
    requires t.Block?
  {
    [Entry(3, Addr(DenoteAddress(t.addr))), Entry(10, Nothing), Entry(15, Number(t.bits))]
  }

  lemma ShiftBlock(base: Stack, t: Target, rest: seq<Token>)
    requires WF(base) && Top(base) in {0, 8} && ValidTokens(rest) && t.Block?
    ensures ValidTokens(YieldTarget(t) + rest) && WF(base + BlockEntries(t))
    ensures Drive(base, YieldTarget(t) + rest) == Drive(base + BlockEntries(t), rest)
  {
    AddressActs(Top(base), SLASH);
    var more := [Punct(SLASH), Num(t.bits)];
    ValidConcat(more, rest);
    RunAddress(base, t.addr, more + rest);
    var three := Entry(3, Addr(DenoteAddress(t.addr)));
    DriveShiftTwo(base + [three], Punct(SLASH), Num(t.bits), rest, 10, 15);
    OneTwo(three, Entry(10, Nothing), Entry(15, Number(t.bits)));
    Assoc(YieldAddress(t.addr), more, rest);
    Assoc(base, [three], [Entry(10, Nothing), Entry(15, Number(t.bits))]);
  }

  /** A prefix no mask exists for crashes the parser, whatever follows. */
  lemma RunCrash(base: Stack, t: Target, rest: seq<Token>)
    requires WF(base) && Top(base) in {0, 8} && ValidTokens(rest) && t.Block? && t.bits > 32
    ensures ValidTokens(YieldTarget(t) + rest) && Drive(base, YieldTarget(t) + rest) == Panic
  {
    ShiftBlock(base, t, rest);
    LookRange(rest);
    AddressActs(Top(base), Look(rest));
    HandleIsTyped(base + BlockEntries(t));
  }

  function ResultStack(r: Result): Stack
    requires Ok(r)
  {
    [Entry(0, Nothing), Entry(1, Ranges(Denote(r)))]
  }

  predicate Ends(rest: seq<Token>) { Look(rest) in {END, COMMA} }

  /** After a result, a comma leads to a state in which the next target may start. */
  lemma RunComma(r: Result, spaced: bool, rest: seq<Token>)
    requires Ok(r) && ValidTokens(rest) && Look(rest) in {NUM, STAR}
    ensures ValidTokens(YieldComma(spaced) + rest) && WF(ResultStack(r)) && WF(ResultStack(r) + [Entry(8, Nothing)])
    ensures Drive(ResultStack(r), YieldComma(spaced) + rest) == Drive(ResultStack(r) + [Entry(8, Nothing)], rest)
  {
    if spaced {
      RunSpaced(ResultStack(r), rest);
    } else {
      RunUnspaced(ResultStack(r), rest);
    }
  }

  lemma RunSpaced(base: Stack, rest: seq<Token>)
    requires WF(base) && Top(base) == 1 && ValidTokens(rest)
    ensures ValidTokens(YieldComma(true) + rest) && WF(base + [Entry(8, Nothing)])
    ensures Drive(base, YieldComma(true) + rest) == Drive(base + [Entry(8, Nothing)], rest)
  {
    LookRange(rest);
    CommaActs(Look(rest));
    DriveShiftTwo(base, Punct(COMMA), Punct(SPACE), rest, 9, 14);
    var args := [Entry(9, Nothing), Entry(14, Nothing)];
    DriveReduce(base + args, rest, 4);
    ReducedAbove(base, args, 4);
  }

  lemma RunUnspaced(base: Stack, rest: seq<Token>)
    requires WF(base) && Top(base) == 1 && ValidTokens(rest) && Look(rest) != SPACE
    ensures ValidTokens(YieldComma(false) + rest) && WF(base + [Entry(8, Nothing)])
    ensures Drive(base, YieldComma(false) + rest) == Drive(base + [Entry(8, Nothing)], rest)
  {
    LookRange(rest);
    CommaActs(Look(rest));
    DriveShift(base, Punct(COMMA), rest, 9);
    var args := [Entry(9, Nothing)];
    DriveReduce(base + args, rest, 3);
    ReducedAbove(base, args, 3);
  }

  lemma TargetLook(t: Target, rest: seq<Token>)
    requires ValidTokens(rest)
    ensures Look(YieldTarget(t) + rest) in {NUM, STAR}
  {
  }

  /** A derived list, followed by its end or a comma, is reduced to what it denotes. */
  lemma {:induction false} RunResult(r: Result, rest: seq<Token>)
    requires Ok(r) && ValidTokens(rest) && Ends(rest)
    ensures ValidTokens(Yield(r) + rest) && WF(START) && WF(ResultStack(r))
    ensures Drive(START, Yield(r) + rest) == Drive(ResultStack(r), rest)
    decreases r, 2
  {
    if r.One? {
      RunTarget(START, r.t, rest);
      ReduceOne(r, rest);
    } else {
      RunMore(r, rest);
    }
  }

  lemma ReduceOne(r: Result, rest: seq<Token>)
    requires r.One? && Ok(r) && ValidTokens(rest)
    requires var args := [Entry(2, Addr(DenoteTarget(r.t)))]; WF(START + args)
    ensures var args := [Entry(2, Addr(DenoteTarget(r.t)))];
            WF(ResultStack(r)) && Drive(START + args, rest) == Drive(ResultStack(r), rest)
  {
    LookRange(rest);
    ResultActs(Look(rest));
    var args := [Entry(2, Addr(DenoteTarget(r.t)))];
    DriveReduce(START + args, rest, 1);
    ReducedAbove(START, args, 1);
    assert START + [Entry(1, Ranges(Denote(r)))] == ResultStack(r);
  }

  function MoreEntries(r: Result): seq<Entry>
    requires r.More? && Ok(r)
  {
    [Entry(1, Ranges(Denote(r.r))), Entry(8, Nothing), Entry(13, Addr(DenoteTarget(r.t)))]
  }

  lemma ReduceMore(r: Result, rest: seq<Token>)
    requires r.More? && Ok(r) && ValidTokens(rest) && WF(START + MoreEntries(r))
    ensures WF(ResultStack(r)) && Drive(START + MoreEntries(r), rest) == Drive(ResultStack(r), rest)
  {
    LookRange(rest);
    ResultActs(Look(rest));
    DriveReduce(START + MoreEntries(r), rest, 2);
    ReducedAbove(START, MoreEntries(r), 2);
    Two(Entry(0, Nothing), Entry(1, Ranges(Denote(r))), []);
    All(ResultStack(r));
    assert START + [Entry(1, Ranges(Denote(r)))] == ResultStack(r);
  }

  lemma RunMore(r: Result, rest: seq<Token>)
    requires r.More? && Ok(r) && ValidTokens(rest) && Ends(rest)
    ensures ValidTokens(Yield(r) + rest) && WF(START) && WF(ResultStack(r))
    ensures Drive(START, Yield(r) + rest) == Drive(ResultStack(r), rest)
    decreases r, 1
  {
    var eight := ResultStack(r.r) + [Entry(8, Nothing)];
    ValidTarget(r.t, rest);
    RunBefore(r.r, r.spaced, r.t, rest);
    RunTarget(eight, r.t, rest);
    assert eight + [Entry(13, Addr(DenoteTarget(r.t)))] == START + MoreEntries(r);
    ReduceMore(r, rest);
  }

  lemma ValidTarget(t: Target, rest: seq<Token>)
    requires ValidTokens(rest)
    ensures ValidTokens(YieldTarget(t) + rest)
  {
    ValidAddress(t.addr, rest);
    if t.Block? {
      ValidConcat(YieldAddress(t.addr), [Punct(SLASH), Num(t.bits)]);
      ValidConcat(YieldTarget(t), rest);
    }
  }

  /** Everything before the last target of a list. */
  lemma RunBefore(r: Result, spaced: bool, t: Target, rest: seq<Token>)
    requires Ok(r) && ValidTokens(rest) && ValidTokens(YieldTarget(t) + rest)
    ensures var all := (Yield(r) + (YieldComma(spaced) + YieldTarget(t))) + rest;
            var eight := ResultStack(r) + [Entry(8, Nothing)];
            ValidTokens(all) && WF(START) && WF(eight) && Drive(START, all) == Drive(eight, YieldTarget(t) + rest)
    decreases r, 3
  {
    var tail := YieldTarget(t) + rest;
    TargetLook(t, rest);
    RunComma(r, spaced, tail);
    RunResult(r, YieldComma(spaced) + tail);
    Assoc(YieldComma(spaced), YieldTarget(t), rest);
    Assoc(Yield(r), YieldComma(spaced) + YieldTarget(t), rest);
  }
}
