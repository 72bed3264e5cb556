/** The run of the LALR automaton on a token stream, as a function; proved to accept exactly the grammar. */
module IpDrive {
  import opened IpRange
  import opened Cidr
  import opened IpGrammar
  import opened IpAutomaton

  /** The part of a stack entry's value that its symbol uses. */
  datatype Value =
    | Nothing | Number(n: octet) | Octets(o: OctetRange) | Addr(r: AddressRange) | Ranges(l: seq<AddressRange>)

  datatype Entry = Entry(state: int, val: Value)

  type Stack = seq<Entry>

  /** Accepted carries the lexer's `output`; a prefix above 32 crashes the action of production 5. */
  datatype Outcome = Accepted(output: seq<AddressRange>) | SyntaxError | Panic

  predicate ValidTokens(input: seq<Token>) {
    forall i :: 0 <= i < |input| ==> 2 <= input[i].Kind() <= 10 && (input[i].Punct? ==> input[i].kind != NUM)
  }

  /** The kind of value that goes with the symbol `sym` (a token, or minus a nonterminal). */
  predicate Typed(sym: int, v: Value) {
    match sym
    case 4 => v.Number?
    case -3 => v.Octets?
    case -4 => v.Octets?
    case -1 => v.Addr?
    case -2 => v.Addr?
    case -5 => v.Ranges?
    case _ => v == Nothing
  }

  /** Each entry's state may follow the one below it and its value is of the right kind. */
  predicate WF(stack: Stack) {
    stack != [] && stack[0] == Entry(0, Nothing) &&
    forall i :: 0 < i < |stack| ==>
      1 <= stack[i].state < 22 && CanPrecede(stack[i - 1].state, stack[i].state) &&
        Typed(CHK[stack[i].state], stack[i].val)
  }

  function Top(stack: Stack): int
    requires WF(stack)
  {
    stack[|stack| - 1].state
  }

  function Look(input: seq<Token>): int { if input == [] then END else input[0].Kind() }

  function TokenValue(t: Token): Value { if t.Num? then Number(t.n) else Nothing }

  /** How many reductions can still follow in `state` without reading a token. */
  function Level(state: int): nat {
    match state
    case 17 => 6 case 5 => 5 case 6 => 5 case 7 => 5 case 4 => 4 case 16 => 4 case 19 => 4 case 21 => 4
    case 3 => 3 case 15 => 3 case 2 => 2 case 13 => 2 case 9 => 2 case 14 => 2 case _ => 0
  }

  /** The entries popped by production `prod` sit where the grammar says. */
  lemma HandleOnTop(stack: Stack)
    requires WF(stack) && EndsProduction(Top(stack)) > 0
    ensures var p := EndsProduction(Top(stack)); var n := |stack| - R2[p];
            n >= 1 &&
            (p == 1 ==> stack[n - 1].state == 0) && (p == 2 ==> stack[n - 1].state == 0 && stack[n].state == 1) &&
            (p in {3, 4} ==> stack[n - 1].state == 1) &&
            (p in {5, 6, 7} ==> stack[n - 1].state in {0, 8}) &&
            (p == 5 ==> stack[n].state == 3) &&
            (p == 7 ==> stack[n].state == 4 && stack[n + 2].state == 16 && stack[n + 4].state == 19) &&
            (p in {8, 9, 10, 11} ==> stack[n - 1].state in {0, 8, 11, 18, 20}) &&
            (p == 11 ==> stack[n].state == 5)
  {
    var m := |stack|;
    assert m >= 2;
    var p := EndsProduction(Top(stack));
    if R2[p] >= 2 { assert CanPrecede(stack[m - 2].state, stack[m - 1].state); }
    if R2[p] >= 3 { assert CanPrecede(stack[m - 3].state, stack[m - 2].state); }
    if p == 7 {
      assert CanPrecede(stack[m - 4].state, stack[m - 3].state);
      assert CanPrecede(stack[m - 5].state, stack[m - 4].state);
      assert CanPrecede(stack[m - 6].state, stack[m - 5].state);
      assert CanPrecede(stack[m - 7].state, stack[m - 6].state);
    }
  }

  /** The values of a popped right-hand side are of the kinds its action reads. */
  predicate Handle(p: int, args: seq<Entry>) {
    1 <= p < 12 && |args| == R2[p] &&
    match p
    case 1 => args[0].val.Addr?
    case 2 => args[0].val.Ranges? && args[2].val.Addr?
    case 5 => args[0].val.Addr? && args[2].val.Number?
    case 6 => args[0].val.Addr?
    case 7 => args[0].val.Octets? && args[2].val.Octets? && args[4].val.Octets? && args[6].val.Octets?
    case 8 => args[0].val.Number?
    case 10 => args[0].val.Octets?
    case 11 => args[0].val.Number? && args[2].val.Number?
    case _ => true
  }

  /** The actions of the productions; production 5 has none for a prefix above 32. */
  function Semantic(p: int, args: seq<Entry>): Value
    requires Handle(p, args) && (p == 5 ==> args[2].val.n <= 32)
  {
    match p
    case 1 => Ranges([args[0].val.r])
    case 2 => Ranges(args[0].val.l + [args[2].val.r])
    case 5 => Addr(Block32(args[0].val.r.min, args[2].val.n))
    case 6 => args[0].val
    case 7 => Addr(FromOctets(args[0].val.o, args[2].val.o, args[4].val.o, args[6].val.o))
    case 8 => Octets(OctetRange(args[0].val.n, args[0].val.n))
    case 9 => Octets(OctetRange(0, 255))
    case 10 => args[0].val
    case 11 => Octets(OctetRange(args[0].val.n, args[2].val.n))
    case _ => Nothing
  }

  lemma HandleIsTyped(stack: Stack)
    requires WF(stack) && EndsProduction(Top(stack)) > 0
    ensures var p := EndsProduction(Top(stack)); |stack| > R2[p] && Handle(p, stack[|stack| - R2[p]..])
  {
    HandleOnTop(stack);
  }

  /** The stack after reducing by `p`, the production that ends in the top state. */
  function Reduced(stack: Stack, p: int): Stack
    requires WF(stack) && p == EndsProduction(Top(stack)) > 0 && |stack| > R2[p]
    requires Handle(p, stack[|stack| - R2[p]..])
    requires p == 5 ==> stack[|stack| - 1].val.n <= 32
  {
    var n := |stack| - R2[p];
    stack[..n] + [Entry(Goto(p, stack[n - 1].state), Semantic(p, stack[n..]))]
  }

  lemma ReducedIsWF(stack: Stack, p: int)
    requires WF(stack) && p == EndsProduction(Top(stack)) > 0 && |stack| > R2[p]
    requires Handle(p, stack[|stack| - R2[p]..]) && (p == 5 ==> stack[|stack| - 1].val.n <= 32)
    ensures WF(Reduced(stack, p)) && Level(Top(Reduced(stack, p))) < Level(Top(stack))
  {
    HandleOnTop(stack);
    var n := |stack| - R2[p];
    GotoShape(p, stack[n - 1].state);
    GotoLowers(p, stack[n - 1].state, Top(stack));
    SemanticIsTyped(p, stack[n..]);
    PushIsWF(stack, n, Entry(Goto(p, stack[n - 1].state), Semantic(p, stack[n..])));
  }

  lemma PushIsWF(stack: Stack, n: nat, e: Entry)
    requires WF(stack) && 1 <= n <= |stack| && 1 <= e.state < 22
    requires CanPrecede(stack[n - 1].state, e.state) && Typed(CHK[e.state], e.val)
    ensures WF(stack[..n] + [e])
  {
  }

  lemma SemanticIsTyped(p: int, args: seq<Entry>)
    requires Handle(p, args) && (p == 5 ==> args[2].val.n <= 32)
    ensures Typed(-R1[p], Semantic(p, args))
  {
  }

  lemma GotoLowers(p: int, below: int, state: int)
    requires 0 <= below < 22 && p == EndsProduction(state) > 0 && 0 <= state < 22
    requires CHK[Goto(p, below)] == -R1[p] && 0 <= Goto(p, below) < 22
    ensures Level(Goto(p, below)) < Level(state)
  {
  }

  lemma ShiftedIsWF(stack: Stack, t: Token)
    requires WF(stack) && ValidTokens([t]) && Act(Top(stack), t.Kind()).Shift?
    ensures WF(stack + [Entry(Act(Top(stack), t.Kind()).state, TokenValue(t))])
  {
    assert 2 <= [t][0].Kind() <= 10;
    ShiftShape(Top(stack), t.Kind());
  }

  /** The run of the automaton from `stack` on the rest `input` of the tokens. */
  function Drive(stack: Stack, input: seq<Token>): Outcome
    requires WF(stack) && ValidTokens(input)
    decreases |input|, Level(Top(stack))
  {
    var action := Act(Top(stack), Look(input));
    ReduceShape(Top(stack), Look(input));
    if action.Shift? then
      ShiftShape(Top(stack), Look(input));
      ShiftedIsWF(stack, input[0]);
      Drive(stack + [Entry(action.state, TokenValue(input[0]))], input[1..])
    else if action.Reduce? then
      HandleIsTyped(stack);
      if action.prod == 5 && stack[|stack| - 1].val.n > 32 then Panic
      else
        ReducedIsWF(stack, action.prod);
        Drive(Reduced(stack, action.prod), input)
    else if action.Accept? then
      Accepted(stack[|stack| - 1].val.l)
    else SyntaxError
  }

  const START: Stack := [Entry(0, Nothing)]
}
