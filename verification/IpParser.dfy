/** The table-driven driver of iprange/y.go, and ParseList. */
module IpParser {
  import Utf8
  import opened IpRange
  import opened Cidr
  import opened IpGrammar
  import opened IpMeaning
  import opened IpAutomaton
  import opened IpDrive
  import opened IpComplete
  import opened IpTheorems
  import opened IpLexer

  /** ipSymType: one slot of the parser stack. A slot keeps stale values in the fields its symbol does not use. */
  datatype IpSym = IpSym(yys: int, num: octet, octRange: OctetRange, addrRange: AddressRange, result: seq<AddressRange>)

  const ZERO := IpSym(0, 0, OctetRange(0, 0), AddressRange([0, 0, 0, 0], [0, 0, 0, 0]), [])

  const INITIAL_STACK_SIZE := 16

  /** The slot `sym` holds, among other things, the entry `e`. */
  predicate Holds(sym: IpSym, e: Entry) {
    sym.yys == e.state &&
    match e.val
    case Nothing => sym.result == []
    case Number(n) => sym.num == n && sym.result == []
    case Octets(o) => sym.octRange == o && sym.result == []
    case Addr(r) => sym.addrRange == r && sym.result == []
    case Ranges(l) => sym.result == l
  }

  predicate HoldsStack(ipS: seq<IpSym>, stack: Stack, n: int)
  {
    n <= |stack| && n <= |ipS| && forall i :: 0 <= i < n ==> Holds(ipS[i], stack[i])
  }

  /** The switch over productions; `ippt` is the index of the last slot of the right-hand side.
      The slices of production 5's nil mask panic. */
  method PerformAction(p: int, ipS: seq<IpSym>, ippt: int, ghost args: seq<Entry>) returns (ipVAL: IpSym, panic: bool)
    requires Handle(p, args) && 0 <= ippt - R2[p] + 1 && ippt < |ipS|
    requires forall i :: 0 <= i < R2[p] ==> Holds(ipS[ippt - R2[p] + 1 + i], args[i])
    requires p in {3, 4, 9} ==> ipS[ippt - R2[p] + 1].result == []
    ensures panic <==> p == 5 && args[2].val.n > 32
    ensures !panic ==> forall state :: Holds(ipVAL.(yys := state), Entry(state, Semantic(p, args)))
  {
    panic := false;
    var d := ippt - R2[p];
    ipVAL := ipS[d + 1];
    assert Holds(ipS[d + 1], args[0]);
    if R2[p] == 3 { assert Holds(ipS[d + 3], args[2]); }
    match p
    case 1 => ipVAL := ipVAL.(result := ipVAL.result + [ipS[d + 1].addrRange]);
    case 2 => ipVAL := ipVAL.(result := ipS[d + 1].result + [ipS[d + 3].addrRange]);
    case 5 =>
      if ipS[d + 3].num > 32 {
        panic := true;
      } else {
        ipVAL := ipVAL.(addrRange := Block32(ipS[d + 1].addrRange.min, ipS[d + 3].num));
      }
    case 6 => ipVAL := ipVAL.(addrRange := ipS[d + 1].addrRange);
    case 7 =>
      assert Holds(ipS[d + 1 + 2], args[2]) && Holds(ipS[d + 1 + 4], args[4]) && Holds(ipS[d + 1 + 6], args[6]);
      ipVAL := ipVAL.(addrRange := FromOctets(ipS[d + 1].octRange, ipS[d + 3].octRange, ipS[d + 5].octRange,
        ipS[d + 7].octRange));
    case 8 => ipVAL := ipVAL.(octRange := OctetRange(ipS[d + 1].num, ipS[d + 1].num));
    case 9 => ipVAL := ipVAL.(octRange := OctetRange(0, 255));
    case 10 => ipVAL := ipVAL.(octRange := ipS[d + 1].octRange);
    case 11 => ipVAL := ipVAL.(octRange := OctetRange(ipS[d + 1].num, ipS[d + 3].num));
    case _ =>
  }

  /** The search through the exception table. */
  method Exception(ipstate: int, iptoken: int) returns (ipn: int)
    requires ipstate == 1
    ensures ipn == if iptoken == END then -1 else 0
  {
    var xi := 2;
    while EXCA[xi] >= 0 && EXCA[xi] != iptoken
      invariant xi == 2 || (xi == 4 && iptoken != END)
      decreases 4 - xi
    {
      xi := xi + 2;
    }
    ipn := EXCA[xi + 1];
  }

  lemma {:induction false} TokensAreValid(cur: Cursor, num: octet)
    ensures ValidTokens(Tokens(cur, num))
    decreases cur.Size()
  {
    var l := LexAt(cur, num);
    if TokenKind(l.code) != END {
      TokensAreValid(l.cur, l.num);
    }
  }

  /** What the lookahead (if any) and the lexer still hold is `input`. */
  ghost predicate Remaining(code: int, iptoken: int, num: octet, cur: Cursor, input: seq<Token>) {
    if code < 0 then input == Tokens(cur, num)
    else if iptoken == END then input == []
    else
      input != [] && input[0].Kind() == iptoken && (input[0].Num? ==> input[0].n == num) &&
      input[1..] == Tokens(cur, num)
  }

  /** A position of the parser: what it has stacked, what is still to come, and where that leads. */
  ghost predicate At(stack: Stack, input: seq<Token>, tokens: seq<Token>) {
    WF(stack) && ValidTokens(input) && WF(START) && ValidTokens(tokens) && Drive(stack, input) == Drive(START, tokens)
  }

  /** The output the actions have left in the lexer, once there is a result. */
  predicate OutputIs(stack: Stack, output: seq<AddressRange>) {
    |stack| >= 2 && stack[1].state == 1 ==> stack[1].val == Ranges(output)
  }

  /** No state shifts the `error` token, so recovery pops the whole stack. */
  lemma NoErrorShift(state: int)
    requires 0 <= state < 22
    ensures var n := PACT[state] + 2; 0 <= n < LAST ==> 0 <= ACT[n] < 22 && CHK[ACT[n]] != 2
  {
  }

  lemma ShiftAct(state: int, kind: int)
    requires 0 <= state < 22 && 1 <= kind <= 10
    ensures PACT[state] > FLAG && 0 <= PACT[state] + kind < LAST ==>
              0 <= ACT[PACT[state] + kind] < 22 &&
              (CHK[ACT[PACT[state] + kind]] == kind ==> Act(state, kind) == Shift(ACT[PACT[state] + kind]))
    ensures DEF[state] == -2 ==> state == 1
  {
  }

  /** The entry that shifting the first token of `input` adds. */
  function Shifted(stack: Stack, input: seq<Token>): Stack
    requires WF(stack) && input != [] && ValidTokens(input) && Act(Top(stack), Look(input)).Shift?
  {
    stack + [Entry(Act(Top(stack), Look(input)).state, TokenValue(input[0]))]
  }

  lemma StepShift(stack: Stack, input: seq<Token>, tokens: seq<Token>, state: int)
    requires At(stack, input, tokens) && Act(Top(stack), Look(input)) == Shift(state)
    ensures input != [] && At(stack + [Entry(state, TokenValue(input[0]))], input[1..], tokens)
  {
    LookRange(input);
    ShiftShape(Top(stack), Look(input));
    ShiftedIsWF(stack, input[0]);
  }

  predicate NextIs(stack: Stack, input: seq<Token>, a: Action) {
    WF(stack) && ValidTokens(input) && Act(Top(stack), Look(input)) == a
  }

  lemma StepReduce(stack: Stack, input: seq<Token>, tokens: seq<Token>, p: int)
    requires At(stack, input, tokens) && Act(Top(stack), Look(input)) == Reduce(p)
    ensures p == EndsProduction(Top(stack)) > 0 && |stack| > R2[p] && Handle(p, stack[|stack| - R2[p]..])
    ensures p == 5 && stack[|stack| - 1].val.n > 32 ==> Drive(START, tokens) == Panic
    ensures !(p == 5 && stack[|stack| - 1].val.n > 32) ==>
              At(Reduced(stack, p), input, tokens) && Level(Top(Reduced(stack, p))) < Level(Top(stack))
  {
    LookRange(input);
    ReduceShape(Top(stack), Look(input));
    HandleIsTyped(stack);
    if !(p == 5 && stack[|stack| - 1].val.n > 32) { ReducedIsWF(stack, p); }
  }

  /** ipParserImpl together with the local variables of its Parse method. */
  class Parser {
    // iprcvr.char and its internal number; negative while there is no lookahead
    var lookahead: int
    var iptoken: int
    // iprcvr.lval, of which the lexer only ever sets num
    var lval: octet
    var ipS: seq<IpSym>
    var ipp: int
    var ipstate: int
    var ipVAL: IpSym

    constructor ()
      ensures lookahead == -1 && lval == 0 && Pending(START)
    {
      lookahead, iptoken, lval := -1, -1, 0;
      ipS, ipp, ipstate, ipVAL := seq(INITIAL_STACK_SIZE, i => ZERO), -1, 0, ZERO;
    }

    /** The last entry of `stack` has been computed but not pushed. */
    ghost predicate Pending(stack: Stack)
      reads this
    {
      stack != [] && ipp == |stack| - 2 && HoldsStack(ipS, stack, |stack| - 1) && |ipS| > 0 &&
      Holds(ipVAL.(yys := ipstate), stack[|stack| - 1])
    }

    /** The parser's stack is `stack`. */
    ghost predicate Pushed(stack: Stack)
      reads this
    {
      stack != [] && ipp == |stack| - 1 && HoldsStack(ipS, stack, |stack|) && ipstate == stack[|stack| - 1].state
    }

    /** The part of the input that is still to be parsed. */
    ghost predicate Reads(lex: IpLex, input: seq<Token>)
      reads this, lex
    {
      Remaining(lookahead, iptoken, lval, lex.Cur(), input) && (lookahead >= 0 ==> iptoken == Look(input))
    }

    /** ipstack: grows the stack if needed and puts the state and value onto it. */
    method Push(ghost stack: Stack)
      requires Pending(stack)
      modifies this`ipp, this`ipS
      ensures Pushed(stack)
    {
      ipp := ipp + 1;
      if ipp >= |ipS| {
        ipS := ipS + seq(|ipS|, i => ZERO);
      }
      ipS := ipS[ipp := ipVAL.(yys := ipstate)];
    }

    /** `if iprcvr.char < 0 { iprcvr.char, iptoken = iplex1(...) }` */
    method Peek(lex: IpLex, ghost input: seq<Token>)
      requires Reads(lex, input)
      modifies this`lookahead, this`iptoken, this`lval, lex`line, lex`peek
      ensures Reads(lex, input) && lookahead >= 0 && iptoken == Look(input)
    {
      if lookahead < 0 {
        var code, num := lex.Lex(lval);
        lookahead, iptoken, lval := code, TokenKind(code), num;
      }
    }

    /** ipnewstate: shifts if the action table says so. */
    method TryShift(lex: IpLex, ghost stack: Stack, ghost input: seq<Token>) returns (shifted: bool)
      requires WF(stack) && ValidTokens(input) && Pushed(stack) && Reads(lex, input)
      modifies this, lex`line, lex`peek
      ensures shifted <==> Act(Top(stack), Look(input)).Shift?
      ensures !shifted ==> Pushed(stack) && Reads(lex, input)
      ensures shifted ==> input != [] && Reads(lex, input[1..]) && Pending(Shifted(stack, input))
    {
      shifted := false;
      var ipn := PACT[ipstate];
      if ipn <= FLAG {
        return;
      }
      Peek(lex, input);
      LookRange(input);
      ipn := ShiftTarget(ipstate, iptoken);
      if ipn >= 0 {
        ShiftToken(lex, stack, input, ipn);
        shifted := true;
      }
    }

    /** The consultation of the action table: the state to shift to, or -1. */
    static method ShiftTarget(state: int, token: int) returns (ipn: int)
      requires 0 <= state < 22 && 1 <= token <= 10 && PACT[state] > FLAG
      ensures if ipn >= 0 then Act(state, token) == Shift(ipn) else !Act(state, token).Shift?
    {
      ShiftAct(state, token);
      ipn := PACT[state] + token;
      if ipn < 0 || ipn >= LAST {
        return -1;
      }
      ipn := ACT[ipn];
      if CHK[ipn] != token {
        return -1;
      }
    }

    method ShiftToken(lex: IpLex, ghost stack: Stack, ghost input: seq<Token>, ipn: int)
      requires WF(stack) && ValidTokens(input) && Pushed(stack) && Reads(lex, input) && lookahead >= 0
      requires Act(Top(stack), Look(input)) == Shift(ipn)
      modifies this
      ensures input != [] && Reads(lex, input[1..]) && Pending(Shifted(stack, input))
    {
      LookRange(input);
      ShiftShape(Top(stack), Look(input));
      lookahead, iptoken := -1, -1;
      ipVAL := ZERO.(num := lval);
      ipstate := ipn;
    }

    /** Error recovery: reports the error and pops the stack in search of a state that shifts `error`. */
    method Fail(lex: IpLex, ghost stack: Stack)
      requires WF(stack) && Pushed(stack)
      modifies this`ipp, lex`failed
      ensures lex.failed && ipp == -1
    {
      lex.failed := true;
      while ipp >= 0
        invariant lex.failed && -1 <= ipp < |stack| && ipp < |ipS| && HoldsStack(ipS, stack, ipp + 1)
      {
        assert Holds(ipS[ipp], stack[ipp]);
        var ipn := PACT[ipS[ipp].yys] + 2;
        NoErrorShift(ipS[ipp].yys);
        assert 0 <= ipn < LAST ==> CHK[ACT[ipn]] != 2;
        ipp := ipp - 1;
      }
    }

    /** Pops the right-hand side of production `p` and computes what is to be pushed; false when the action crashes. */
    method PopHandle(p: int, ghost stack: Stack) returns (ok: bool)
      requires WF(stack) && Pushed(stack) && p == EndsProduction(Top(stack)) > 0
      requires |stack| > R2[p] && Handle(p, stack[|stack| - R2[p]..])
      modifies this`ipp, this`ipVAL, this`ipstate
      ensures ok <==> !(p == 5 && stack[|stack| - 1].val.n > 32)
      ensures ok ==> Pending(Reduced(stack, p))
    {
      ghost var n := |stack| - R2[p];
      PunctuationIsBare(stack);
      HandleIsHeld(ipS, stack, n);
      var ippt := ipp;
      ipp := ipp - R2[p];
      var panic;
      ipVAL, panic := PerformAction(p, ipS, ippt, stack[n..]);
      ipstate := GotoState(p, ipS[ipp].yys);
      ok := !panic;
      if ok {
        ReducedBelow(stack, p);
        BelowIsHeld(ipS, stack, Reduced(stack, p), n);
      }
    }

    /** A reduction by production `p`, the topmost of which leave the result in the lexer; false when it crashes. */
    method ReduceBy(lex: IpLex, p: int, ghost stack: Stack, ghost input: seq<Token>) returns (ok: bool)
      requires Reads(lex, input) && WF(stack) && Pushed(stack) && p == EndsProduction(Top(stack)) > 0 &&
        OutputIs(stack, lex.output)
      requires |stack| > R2[p] && Handle(p, stack[|stack| - R2[p]..])
      modifies this`ipp, this`ipVAL, this`ipstate, lex`output
      ensures ok <==> !(p == 5 && stack[|stack| - 1].val.n > 32)
      ensures ok ==> Pending(Reduced(stack, p)) && OutputIs(Reduced(stack, p), lex.output)
      ensures Reads(lex, input)
    {
      ok := PopHandle(p, stack);
      if ok {
        if p == 1 || p == 2 {
          ResultIsAtBottom(stack, p);
          lex.output := ipVAL.result;
        } else {
          OutputStays(stack, p, lex.output);
        }
      }
    }

    /** The consultation of the goto table. */
    static method GotoState(p: int, below: int) returns (state: int)
      requires 0 <= p < 12 && 0 <= below < 22
      ensures state == Goto(p, below)
    {
      var ipn := R1[p];
      var ipg := PGO[ipn];
      var ipj := ipg + below + 1;
      if ipj >= LAST {
        state := ACT[ipg];
      } else {
        state := ACT[ipj];
        if CHK[state] != -ipn {
          state := ACT[ipg];
        }
      }
    }

    /** ipdefault and the exception table: negative to accept, 0 for an error, else the production to reduce. */
    method DefaultAction(lex: IpLex, ghost stack: Stack, ghost input: seq<Token>) returns (ipn: int)
      requires WF(stack) && ValidTokens(input) && Pushed(stack) && Reads(lex, input)
      requires !Act(Top(stack), Look(input)).Shift?
      modifies this`lookahead, this`iptoken, this`lval, lex`line, lex`peek
      ensures Reads(lex, input)
      ensures Act(Top(stack), Look(input)) == if ipn < 0 then Accept else if ipn == 0 then Error else Reduce(ipn)
    {
      LookRange(input);
      ShiftAct(ipstate, Look(input));
      ipn := DEF[ipstate];
      if ipn == -2 {
        Peek(lex, input);
        ipn := Exception(ipstate, iptoken);
      }
    }

    /** The parser is about to push the top of `stack`, and stays on the way that `tokens` leads. */
    ghost predicate Ready(lex: IpLex, stack: Stack, input: seq<Token>, tokens: seq<Token>)
      reads this, lex
    {
      At(stack, input, tokens) && Pending(stack) && Reads(lex, input) && OutputIs(stack, lex.output) && !lex.failed
    }

    /** How the outcome of the automaton shows in the return code and in the lexer. */
    ghost predicate Returns(o: Outcome, code: int, lex: IpLex)
      reads lex
    {
      match o
      case Accepted(output) => code == 0 && !lex.failed && lex.output == output
      case SyntaxError => code == 1 && lex.failed
      case Panic => code == 2
    }

    /** ipdefault: accepts, fails, crashes, or (code -1) reduces. */
    method TakeAction(lex: IpLex, ghost stack: Stack, ghost input: seq<Token>, ghost tokens: seq<Token>)
      returns (code: int, ghost stack': Stack)
      requires At(stack, input, tokens) && Pushed(stack) && Reads(lex, input) && OutputIs(stack, lex.output) &&
        !lex.failed
      requires !Act(Top(stack), Look(input)).Shift?
      modifies this, lex
      ensures code >= 0 ==> Returns(Drive(START, tokens), code, lex)
      ensures code < 0 ==> Ready(lex, stack', input, tokens) && Level(Top(stack')) < Level(Top(stack))
    {
      stack' := stack;
      var ipn := DefaultAction(lex, stack, input);
      if ipn > 0 {
        code, stack' := TakeReduction(lex, stack, input, tokens, ipn);
      } else {
        StepHalt(stack, input, tokens, lex.output);
        code := 0;
        if ipn == 0 {
          Fail(lex, stack);
          code := 1;
        }
      }
    }

    method TakeReduction(lex: IpLex, ghost stack: Stack, ghost input: seq<Token>, ghost tokens: seq<Token>, p: int)
      returns (code: int, ghost stack': Stack)
      requires At(stack, input, tokens) && Pushed(stack) && Reads(lex, input) && OutputIs(stack, lex.output) &&
        !lex.failed
      requires NextIs(stack, input, Reduce(p))
      modifies this, lex
      ensures code >= 0 ==> Returns(Drive(START, tokens), code, lex)
      ensures code < 0 ==> Ready(lex, stack', input, tokens) && Level(Top(stack')) < Level(Top(stack))
    {
      StepReduce(stack, input, tokens, p);
      var ok := ReduceBy(lex, p, stack, input);
      if ok {
        code, stack' := -1, Reduced(stack, p);
      } else {
        code, stack' := 2, stack;
      }
    }

    /** One round of the driver: a push, then a shift or the default action. */
    method TakeTurn(lex: IpLex, ghost stack: Stack, ghost input: seq<Token>, ghost tokens: seq<Token>)
      returns (code: int, ghost stack': Stack, ghost input': seq<Token>)
      requires Ready(lex, stack, input, tokens)
      modifies this, lex
      ensures code >= 0 ==> Returns(Drive(START, tokens), code, lex)
      ensures code < 0 ==> Ready(lex, stack', input', tokens)
      ensures code < 0 ==> |input'| < |input| || (|input'| == |input| && Level(Top(stack')) < Level(Top(stack)))
    {
      Push(stack);
      var shifted := TryShift(lex, stack, input);
      if shifted {
        AfterShift(stack, input, tokens, lex.output);
        code, stack', input' := -1, Shifted(stack, input), input[1..];
      } else {
        code, stack' := TakeAction(lex, stack, input, tokens);
        input' := input;
      }
    }

    /** Parse: 0 for success, 1 for a syntax error, 2 where the original crashes. */
    method Parse(lex: IpLex) returns (code: int)
      requires lookahead == -1 && lval == 0 && Pending(START) && !lex.failed
      modifies this, lex
      ensures ValidTokens(Tokens(old(lex.Cur()), 0)) && WF(START)
      ensures Returns(Drive(START, Tokens(old(lex.Cur()), 0)), code, lex)
    {
      ghost var tokens := Tokens(lex.Cur(), 0);
      TokensAreValid(lex.Cur(), 0);
      ghost var stack, input := START, tokens;
      code := -1;
      while code < 0
        invariant ValidTokens(tokens) && WF(START)
        invariant code < 0 ==> Ready(lex, stack, input, tokens)
        invariant code >= 0 ==> Returns(Drive(START, tokens), code, lex)
        decreases code < 0, |input|, if code < 0 then Level(Top(stack)) else 0
      {
        code, stack, input := TakeTurn(lex, stack, input, tokens);
      }
    }
  }

  lemma OutputStaysOnShift(stack: Stack, stack': Stack, output: seq<AddressRange>)
    requires WF(stack) && OutputIs(stack, output) && |stack'| == |stack| + 1 && stack' == stack + [stack'[|stack|]]
    requires stack'[|stack|].state in {5, 6, 9, 10, 11, 12, 14, 15, 17, 18, 20}
    ensures OutputIs(stack', output)
  {
  }

  lemma AfterShift(stack: Stack, input: seq<Token>, tokens: seq<Token>, output: seq<AddressRange>)
    requires At(stack, input, tokens) && OutputIs(stack, output) && Act(Top(stack), Look(input)).Shift?
    ensures input != [] && At(Shifted(stack, input), input[1..], tokens) && OutputIs(Shifted(stack, input), output)
  {
    StepShift(stack, input, tokens, Act(Top(stack), Look(input)).state);
    OutputStaysOnShift(stack, Shifted(stack, input), output);
  }

  ghost predicate CanReduce(stack: Stack, p: int) {
    WF(stack) && p == EndsProduction(Top(stack)) > 0 && |stack| > R2[p] && Handle(p, stack[|stack| - R2[p]..]) &&
    (p == 5 ==> stack[|stack| - 1].val.n <= 32)
  }

  lemma StepHalt(stack: Stack, input: seq<Token>, tokens: seq<Token>, output: seq<AddressRange>)
    requires At(stack, input, tokens) && OutputIs(stack, output)
    ensures Act(Top(stack), Look(input)).Accept? ==> Drive(START, tokens) == Accepted(output)
    ensures Act(Top(stack), Look(input)).Error? ==> Drive(START, tokens) == SyntaxError
  {
    LookRange(input);
    ReduceShape(Top(stack), Look(input));
    if Act(Top(stack), Look(input)).Accept? { AcceptedOutput(stack, output); }
  }

  lemma AcceptedOutput(stack: Stack, output: seq<AddressRange>)
    requires WF(stack) && Top(stack) == 1 && OutputIs(stack, output)
    ensures stack[|stack| - 1].val == Ranges(output)
  {
    assert CanPrecede(stack[|stack| - 2].state, 1);
    assert |stack| == 2;
  }

  datatype ParseResult = Parsed(l: seq<AddressRange>) | Failed | Crashed

  /** ParseList, with the crash as an outcome of its own. */
  method ParseList(text: seq<Utf8.byte>) returns (r: ParseResult)
    ensures forall l :: r == Parsed(l) <==> Derives(Tokens(Cursor(EOF, text), 0), l)
    ensures r.Crashed? <==> BadPrefix(Tokens(Cursor(EOF, text), 0))
    ensures r.Parsed? ==> exists list :: Yield(list) == Tokens(Cursor(EOF, text), 0) && StandFor(r.l, Targets(list))
  {
    var lex := new IpLex(text);
    var parser := new Parser();
    var errCode := parser.Parse(lex);
    ghost var tokens := Tokens(Cursor(EOF, text), 0);
    forall l ensures Drive(START, tokens) == Accepted(l) <==> Derives(tokens, l) {
      AcceptsExactlyTheGrammar(tokens, l);
    }
    CrashesExactlyOnBadPrefix(tokens);
    if errCode == 2 {
      return Crashed;
    }
    if errCode != 0 || lex.failed {
      return Failed;
    }
    DerivedStandFor(tokens, lex.output);
    return Parsed(lex.output);
  }

  /** What a derived list of ranges stands for. */
  lemma DerivedStandFor(tokens: seq<Token>, l: seq<AddressRange>)
    requires Derives(tokens, l)
    ensures exists list :: Yield(list) == tokens && StandFor(l, Targets(list))
  {
    var list :| Ok(list) && Yield(list) == tokens && Denote(list) == l;
    DenotedStandFor(list);
  }

  datatype ParseOneResult = ParsedOne(r: AddressRange) | FailedOne | CrashedOne

  /** Parse: the first range of the list. Indexing is safe because a parsed list is never empty. */
  method ParseOne(text: seq<Utf8.byte>) returns (r: ParseOneResult)
    ensures r.ParsedOne? ==> exists l :: Derives(Tokens(Cursor(EOF, text), 0), l) && l != [] && r.r == l[0]
    ensures r.ParsedOne? ==> exists list :: Yield(list) == Tokens(Cursor(EOF, text), 0) && IsFirst(r.r, list)
    ensures r.CrashedOne? <==> BadPrefix(Tokens(Cursor(EOF, text), 0))
    ensures r.FailedOne? ==> forall l :: !Derives(Tokens(Cursor(EOF, text), 0), l)
  {
    var l := ParseList(text);
    if l.Parsed? {
      NeverEmpty(Tokens(Cursor(EOF, text), 0), l.l);
      r := ParsedOne(l.l[0]);
      assert Derives(Tokens(Cursor(EOF, text), 0), l.l) && l.l != [] && r.r == l.l[0];
    } else {
      r := if l.Failed? then FailedOne else CrashedOne;
    }
  }

  lemma ReducedBelow(stack: Stack, p: int)
    requires CanReduce(stack, p)
    ensures var n := |stack| - R2[p]; var t := Reduced(stack, p);
            |t| == n + 1 && t[n] == Entry(Goto(p, stack[n - 1].state), Semantic(p, stack[n..])) &&
            forall i :: 0 <= i < n ==> t[i] == stack[i]
  {
    var n := |stack| - R2[p];
    AppendedBelow(stack, n, Entry(Goto(p, stack[n - 1].state), Semantic(p, stack[n..])));
  }

  lemma HandleIsHeld(ipS: seq<IpSym>, stack: Stack, n: nat)
    requires HoldsStack(ipS, stack, |stack|) && 1 <= n <= |stack|
    ensures Holds(ipS[n - 1], stack[n - 1])
    ensures forall i :: 0 <= i < |stack| - n ==> Holds(ipS[n + i], stack[n..][i])
  {
  }

  lemma BelowIsHeld(ipS: seq<IpSym>, stack: Stack, t: Stack, n: nat)
    requires HoldsStack(ipS, stack, |stack|) && n <= |stack| && n <= |t| && forall i :: 0 <= i < n ==> t[i] == stack[i]
    ensures HoldsStack(ipS, t, n)
  {
  }

  lemma AppendedBelow(stack: Stack, n: nat, e: Entry)
    requires n <= |stack|
    ensures var t := stack[..n] + [e]; |t| == n + 1 && t[n] == e && forall i :: 0 <= i < n ==> t[i] == stack[i]
  {
  }

  lemma PunctuationIsBare(stack: Stack)
    requires WF(stack) && EndsProduction(Top(stack)) > 0
    ensures var p := EndsProduction(Top(stack));
            |stack| > R2[p] && (p in {3, 4, 9} ==> stack[|stack| - R2[p]].val == Nothing)
    ensures 0 <= stack[|stack| - R2[EndsProduction(Top(stack))] - 1].state < 22
  {
    HandleOnTop(stack);
  }

  lemma ResultIsAtBottom(stack: Stack, p: int)
    requires WF(stack) && p == EndsProduction(Top(stack)) && p in {1, 2} && |stack| > R2[p]
    ensures |stack| - R2[p] == 1
  {
    HandleOnTop(stack);
  }

  lemma OutputStays(stack: Stack, p: int, output: seq<AddressRange>)
    requires WF(stack) && p == EndsProduction(Top(stack)) > 2 && |stack| > R2[p] && OutputIs(stack, output)
    requires Handle(p, stack[|stack| - R2[p]..]) && (p == 5 ==> stack[|stack| - 1].val.n <= 32)
    ensures OutputIs(Reduced(stack, p), output)
  {
    HandleOnTop(stack);
    var n := |stack| - R2[p];
    GotoShape(p, stack[n - 1].state);
    ReducedBelow(stack, p);
    if n > 1 {
      assert Reduced(stack, p)[1] == stack[1];
    } else {
      assert Reduced(stack, p)[1].state == Goto(p, 0) != 1;
    }
  }
}
