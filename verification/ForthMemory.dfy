/**
 * forth/eval.go: what a row does to the array its stack starts in. Words overwrite that array in place
 * until the stack outgrows it; from then on they work on a copy and leave it alone.
 */
module ForthMemory {
  import opened Common
  import opened ForthWords

  /** The array, and whether the running stack is still a slice of it. */
  datatype Memory = Memory(cells: seq<int>, shared: bool)

  /** One step of the run to the stack `next`; a step that fails writes nothing. */
  function After(m: Memory, next: Option<Stack>): (r: Memory)
    ensures |r.cells| == |m.cells|
  {
    if next.None? || !m.shared then m
    else if |next.value| <= |m.cells| then Memory(next.value + m.cells[|next.value|..], true)
    else Memory(m.cells, false)
  }

  /** The whole run of a flat program, up to the step that fails. */
  function Trace(lang: Lang, atoms: seq<Atom>, st: Stack, m: Memory): (r: Memory)
    ensures |r.cells| == |m.cells|
    decreases atoms
  {
    if atoms == [] then m
    else
      var next := RunAtom(lang, atoms[0], st);
      if next.None? then m else Trace(lang, atoms[1..], next.value, After(m, next))
  }

  lemma TraceOne(lang: Lang, a: Atom, st: Stack, m: Memory)
    ensures Trace(lang, [a], st, m) == After(m, RunAtom(lang, a, st))
  {
  }

  lemma {:induction false} TraceFrozen(lang: Lang, atoms: seq<Atom>, st: Stack, m: Memory)
    requires !m.shared
    ensures Trace(lang, atoms, st, m) == m
    decreases atoms
  {
    if atoms != [] {
      var next := RunAtom(lang, atoms[0], st);
      if next.Some? { TraceFrozen(lang, atoms[1..], next.value, m); }
    }
  }

  lemma {:induction false} TraceAppend(lang: Lang, a: seq<Atom>, b: seq<Atom>, st: Stack, m: Memory)
    ensures var mid := RunAtoms(lang, a, st); var first := Trace(lang, a, st, m);
      Trace(lang, a + b, st, m) == if mid.None? then first else Trace(lang, b, mid.value, first)
    decreases a
  {
    if a == [] {
      assert a + b == b;
    } else {
      assert (a + b)[1..] == a[1..] + b;
      var next := RunAtom(lang, a[0], st);
      if next.Some? { TraceAppend(lang, a[1..], b, next.value, After(m, next)); }
    }
  }

  // ---- Step by step ----

  /** The stack after the first `j` steps. */
  function StackAt(lang: Lang, atoms: seq<Atom>, st: Stack, j: nat): Option<Stack>
    requires j <= |atoms|
  {
    RunAtoms(lang, atoms[..j], st)
  }

  function MemoryAt(lang: Lang, atoms: seq<Atom>, st: Stack, m: Memory, j: nat): Memory
    requires j <= |atoms|
  {
    Trace(lang, atoms[..j], st, m)
  }

  lemma StepAt(lang: Lang, atoms: seq<Atom>, st: Stack, m: Memory, j: nat)
    requires j < |atoms|
    ensures var mid := StackAt(lang, atoms, st, j);
      StackAt(lang, atoms, st, j + 1) == if mid.None? then None else RunAtom(lang, atoms[j], mid.value)
    ensures MemoryAt(lang, atoms, st, m, j + 1) ==
      After(MemoryAt(lang, atoms, st, m, j), StackAt(lang, atoms, st, j + 1))
  {
    assert atoms[..j + 1] == atoms[..j] + [atoms[j]];
    RunAppend(lang, atoms[..j], [atoms[j]], st);
    TraceAppend(lang, atoms[..j], [atoms[j]], st, m);
    var mid := StackAt(lang, atoms, st, j);
    if mid.Some? {
      RunOne(lang, atoms[j], mid.value);
      TraceOne(lang, atoms[j], mid.value, MemoryAt(lang, atoms, st, m, j));
    }
  }

  /** While the stack is a slice of the array, the array starts with it. */
  ghost predicate SliceOf(m: Memory, st: Option<Stack>) {
    m.shared && st.Some? ==> |st.value| <= |m.cells| && m.cells[..|st.value|] == st.value
  }

  lemma {:induction false} StaysSlice(lang: Lang, atoms: seq<Atom>, st: Stack, m: Memory, j: nat)
    requires SliceOf(m, Some(st)) && j <= |atoms|
    ensures SliceOf(MemoryAt(lang, atoms, st, m, j), StackAt(lang, atoms, st, j))
  {
    if j > 0 {
      StaysSlice(lang, atoms, st, m, j - 1);
      StepAt(lang, atoms, st, m, j - 1);
    }
  }

  /** The stack leaves its array at the first moment it is higher than the array is long. */
  lemma {:induction false} SharedUntilGrowth(lang: Lang, atoms: seq<Atom>, st: Stack, m: Memory, j: nat)
    requires m.shared && |st| <= |m.cells| && j <= |atoms|
    ensures MemoryAt(lang, atoms, st, m, j).shared <==>
      forall l :: 0 <= l <= j && StackAt(lang, atoms, st, l).Some? ==> |StackAt(lang, atoms, st, l).value| <= |m.cells|
  {
    if j > 0 {
      SharedUntilGrowth(lang, atoms, st, m, j - 1);
      StepAt(lang, atoms, st, m, j - 1);
    }
  }

  // ---- Which entries are written ----

  /** Where a step writes, if it succeeds in place. */
  predicate WritesAt(a: Atom, st: Stack, i: int) {
    match a
    case Text(t) => i == |st|
    case Op(p) =>
      match p
      case Drop => false
      case Dup => i == |st|
      case Over => i == |st|
      case Swap => i == |st| - 1 || i == |st| - 2
      case _ => i == |st| - 2
  }

  /** Step `j` of the run writes entry `i` of the array: it succeeds, before the stack has left the array. */
  ghost predicate Writes(lang: Lang, atoms: seq<Atom>, st: Stack, m: Memory, j: int, i: int) {
    0 <= j < |atoms| && StackAt(lang, atoms, st, j + 1).Some? && MemoryAt(lang, atoms, st, m, j + 1).shared &&
    StackAt(lang, atoms, st, j).Some? && WritesAt(atoms[j], StackAt(lang, atoms, st, j).value, i)
  }

  ghost predicate WritesLast(lang: Lang, atoms: seq<Atom>, st: Stack, m: Memory, j: int, i: int) {
    Writes(lang, atoms, st, m, j, i) && forall l :: j < l ==> !Writes(lang, atoms, st, m, l, i)
  }

  /** A step changes the entries it writes, to what the stack holds there, and no others. */
  lemma StepWrites(lang: Lang, a: Atom, st: Stack, m: Memory, i: nat)
    requires SliceOf(m, Some(st)) && i < |m.cells|
    ensures var next := RunAtom(lang, a, st); var r := After(m, next);
      if next.Some? && r.shared && WritesAt(a, st, i) then i < |next.value| && r.cells[i] == next.value[i]
      else r.cells[i] == m.cells[i]
  {
    var next := RunAtom(lang, a, st);
    if m.shared && next.Some? && i < |next.value| && i < |st| {
      assert m.cells[i] == m.cells[..|st|][i];
    }
  }

  lemma OneStep(lang: Lang, atoms: seq<Atom>, st: Stack, m: Memory, j: nat, i: nat)
    requires SliceOf(m, Some(st)) && j < |atoms| && i < |m.cells|
    ensures Writes(lang, atoms, st, m, j, i) ==>
      i < |StackAt(lang, atoms, st, j + 1).value| &&
      MemoryAt(lang, atoms, st, m, j + 1).cells[i] == StackAt(lang, atoms, st, j + 1).value[i]
    ensures !Writes(lang, atoms, st, m, j, i) ==>
      MemoryAt(lang, atoms, st, m, j + 1).cells[i] == MemoryAt(lang, atoms, st, m, j).cells[i]
  {
    StaysSlice(lang, atoms, st, m, j);
    StepAt(lang, atoms, st, m, j);
    var mid := StackAt(lang, atoms, st, j);
    if mid.Some? { StepWrites(lang, atoms[j], mid.value, MemoryAt(lang, atoms, st, m, j), i); }
  }

  lemma {:induction false} Unwritten(lang: Lang, atoms: seq<Atom>, st: Stack, m: Memory, from: nat, to: nat, i: nat)
    requires SliceOf(m, Some(st)) && from <= to <= |atoms| && i < |m.cells|
    requires forall j :: from <= j < to ==> !Writes(lang, atoms, st, m, j, i)
    ensures MemoryAt(lang, atoms, st, m, to).cells[i] == MemoryAt(lang, atoms, st, m, from).cells[i]
  {
    if from < to {
      Unwritten(lang, atoms, st, m, from, to - 1, i);
      OneStep(lang, atoms, st, m, to - 1, i);
    }
  }

  /**
   * What a row leaves in each entry of the array it started in: what was there, if no step writes the
   * entry in place before the stack outgrows the array, and else what the last such step made of it.
   */
  lemma EntryAfterRow(lang: Lang, atoms: seq<Atom>, st: Stack, m: Memory, i: nat)
    requires SliceOf(m, Some(st)) && i < |m.cells|
    ensures var left := Trace(lang, atoms, st, m).cells[i];
      (forall j :: !Writes(lang, atoms, st, m, j, i)) ==> left == m.cells[i]
    ensures forall j :: WritesLast(lang, atoms, st, m, j, i) ==>
      i < |StackAt(lang, atoms, st, j + 1).value| &&
      Trace(lang, atoms, st, m).cells[i] == StackAt(lang, atoms, st, j + 1).value[i]
  {
    assert atoms[..|atoms|] == atoms && atoms[..0] == [];
    if forall j :: !Writes(lang, atoms, st, m, j, i) {
      Unwritten(lang, atoms, st, m, 0, |atoms|, i);
    }
    forall j | WritesLast(lang, atoms, st, m, j, i)
      ensures i < |StackAt(lang, atoms, st, j + 1).value|
      ensures Trace(lang, atoms, st, m).cells[i] == StackAt(lang, atoms, st, j + 1).value[i]
    {
      OneStep(lang, atoms, st, m, j, i);
      Unwritten(lang, atoms, st, m, j + 1, |atoms|, i);
    }
  }

  /** A row can fail and leave a changed stack: after the stack 1 2, the row `+ foo` leaves 3 2. */
  lemma FailingRowOverwrites(lang: Lang, words: FlatWords, plus: Token, foo: Token, rest: seq<int>)
    requires lang.lower(plus) in words && words[lang.lower(plus)] == [Op(Add)]
    requires lang.lower(foo) !in words && lang.atoi(foo).None?
    ensures var row := Expand(lang, words, [plus, foo]);
      RunAtoms(lang, row, [1, 2]).None? && Trace(lang, row, [1, 2], Memory([1, 2] + rest, true)).cells == [3, 2] + rest
  {
    assert [plus, foo][1..] == [foo] && [foo][1..] == [];
    var row := [Op(Add), Text(foo)];
    assert Expand(lang, words, [foo]) == [Text(foo)] && [Op(Add)] + [Text(foo)] == row;
    assert Expand(lang, words, [plus, foo]) == row;
    var m := Memory([1, 2] + rest, true);
    assert row[1..] == [Text(foo)];
    assert [1, 2][..0] + [Wrap(3)] == [3];
    assert RunAtom(lang, Op(Add), [1, 2]) == Some([3]);
    assert [3] + ([1, 2] + rest)[1..] == [3, 2] + rest;
    assert After(m, Some([3])).cells == [3, 2] + rest;
    TraceOne(lang, Text(foo), [3], After(m, Some([3])));
  }
}
