/** The tables of iprange/y.go and the LALR automaton they encode. */
module IpAutomaton {
  import opened IpGrammar

  const EXCA: seq<int> := [-1, 1, 1, -1, -2, 0]
  const LAST := 22
  const ACT: seq<int> := [4, 5, 12, 20, 2, 10, 6, 18, 11, 14, 9, 17, 16, 13, 15, 8, 1, 7, 3, 19, 0, 21]
  const PACT: seq<int> := [-3, 5, -1000, -2, 0, -8, -1000, -1000, -3, 3, 10, -3, 7, -1000, -1000, -1000, -1, -1000,
    -3, -5, -3, -1000]
  const PGO: seq<int> := [0, 18, 4, 0, 17, 16, 15]
  const R1: seq<int> := [0, 5, 5, 6, 6, 2, 2, 1, 3, 3, 3, 4]
  const R2: seq<int> := [0, 1, 3, 1, 2, 3, 1, 7, 1, 1, 1, 3]
  const CHK: seq<int> := [-1000, -5, -2, -1, -3, 4, 9, -4, -6, 5, 7, 8, 10, -2, 6, 4, -3, 4, 8, -3, 8, -3]
  const DEF: seq<int> := [0, -2, 1, 6, 0, 8, 9, 10, 0, 3, 0, 0, 0, 2, 4, 5, 0, 11, 0, 0, 0, 7]
  const FLAG := -1000

  datatype Action = Shift(state: int) | Reduce(prod: int) | Accept | Error

  /** What the driver does in `state` on lookahead `kind`. */
  function Act(state: int, kind: int): Action
    requires 0 <= state < 22
  {
    var n := PACT[state] + kind;
    if PACT[state] > FLAG && 0 <= n < LAST && 0 <= ACT[n] < 22 && CHK[ACT[n]] == kind then Shift(ACT[n])
    else if DEF[state] == -2 then (if kind == END then Accept else Error)
    else if DEF[state] == 0 then Error
    else Reduce(DEF[state])
  }

  /** The goto table: the state after reducing by `prod` on top of `state`. */
  function Goto(prod: int, state: int): int
    requires 0 <= prod < 12 && 0 <= state < 22
  {
    var nt := R1[prod];
    var g := PGO[nt];
    var j := g + state + 1;
    if j >= LAST then ACT[g] else if CHK[ACT[j]] != -nt then ACT[g] else ACT[j]
  }

  /** The states that can lie directly below `state` on the stack. */
  predicate CanPrecede(below: int, state: int) {
    match state
    case 1 => below == 0
    case 2 => below == 0
    case 3 => below in {0, 8}
    case 4 => below in {0, 8}
    case 5 => below in {0, 8, 11, 18, 20}
    case 6 => below in {0, 8, 11, 18, 20}
    case 7 => below in {0, 8, 11, 18, 20}
    case 8 => below == 1
    case 9 => below == 1
    case 10 => below == 3
    case 11 => below == 4
    case 12 => below == 5
    case 13 => below == 8
    case 14 => below == 9
    case 15 => below == 10
    case 16 => below == 11
    case 17 => below == 12
    case 18 => below == 16
    case 19 => below == 18
    case 20 => below == 19
    case 21 => below == 20
    case _ => false
  }

  /** The production reduced in each of the states that end one. */
  function EndsProduction(state: int): int {
    match state
    case 2 => 1 case 13 => 2 case 9 => 3 case 14 => 4 case 15 => 5 case 3 => 6
    case 21 => 7 case 5 => 8 case 6 => 9 case 7 => 10 case 17 => 11 case _ => 0
  }

  lemma ShiftShapeLow(state: int, kind: int)
    requires 0 <= state < 9 && 1 <= kind <= 10 && Act(state, kind).Shift?
    ensures var t := Act(state, kind).state; 1 <= t < 22 && CHK[t] == kind && CanPrecede(state, t) && kind >= NUM
  {
  }

  lemma ShiftShape(state: int, kind: int)
    requires 0 <= state < 22 && 1 <= kind <= 10 && Act(state, kind).Shift?
    ensures var t := Act(state, kind).state; 1 <= t < 22 && CHK[t] == kind && CanPrecede(state, t) && kind >= NUM
  {
    if state < 9 { ShiftShapeLow(state, kind); }
  }

  lemma ReduceShapeLow(state: int, kind: int)
    requires 0 <= state < 9 && 1 <= kind <= 10
    ensures Act(state, kind).Reduce? ==> 1 <= Act(state, kind).prod == EndsProduction(state) < 12
    ensures Act(state, kind).Accept? <==> state == 1 && kind == END
  {
  }

  lemma ReduceShape(state: int, kind: int)
    requires 0 <= state < 22 && 1 <= kind <= 10
    ensures Act(state, kind).Reduce? ==> 1 <= Act(state, kind).prod == EndsProduction(state) < 12
    ensures Act(state, kind).Accept? <==> state == 1 && kind == END
  {
    if state < 9 { ReduceShapeLow(state, kind); }
  }

  lemma GotoShape(prod: int, below: int)
    requires 1 <= prod < 12
    requires prod in {1} ==> below == 0
    requires prod == 2 ==> below == 0
    requires prod in {3, 4} ==> below == 1
    requires prod in {5, 6, 7} ==> below in {0, 8}
    requires prod in {8, 9, 10, 11} ==> below in {0, 8, 11, 18, 20}
    ensures var t := Goto(prod, below); 1 <= t < 22 && CanPrecede(below, t) && CHK[t] == -R1[prod]
  {
  }
}
