/** What merging keeps, step by step: the lines waiting in the readers, those in the heap and those written. */
module MergeOrder {
  import opened Sorting

  /** heapNode */
  datatype Node<T> = Node(str: T, lineReaderInd: nat)

  function Flat<T>(rest: seq<seq<T>>): seq<T> {
    if rest == [] then [] else rest[0] + Flat(rest[1..])
  }

  function Strs<T>(heap: seq<Node<T>>): (s: seq<T>)
    ensures |s| == |heap| && forall k :: 0 <= k < |s| ==> s[k] == heap[k].str
  {
    seq(|heap|, k requires 0 <= k < |heap| => heap[k].str)
  }

  /** All lines, wherever they are now. */
  ghost function Everything<T>(rest: seq<seq<T>>, heap: seq<Node<T>>, written: seq<T>): multiset<T> {
    multiset(written) + multiset(Strs(heap)) + multiset(Flat(rest))
  }

  ghost predicate KnownReaders<T>(n: nat, heap: seq<Node<T>>) {
    forall node :: node in heap ==> node.lineReaderInd < n
  }

  ghost predicate Waits<T>(heap: seq<Node<T>>, i: nat) {
    exists node :: node in heap && node.lineReaderInd == i
  }

  /** Of each reader before `n` that has lines left, a line is in the heap. */
  ghost predicate Represented<T>(rest: seq<seq<T>>, heap: seq<Node<T>>, n: nat) {
    forall i {:trigger Waits(heap, i)} :: 0 <= i < n && i < |rest| && rest[i] != [] ==> Waits(heap, i)
  }

  ghost predicate AllSorted<T(!new)>(le: (T, T) -> bool, rest: seq<seq<T>>) {
    forall i :: 0 <= i < |rest| ==> Sorted(le, rest[i])
  }

  ghost predicate AtMost<T>(le: (T, T) -> bool, xs: seq<T>, y: T) {
    forall x :: x in xs ==> le(x, y)
  }

  ghost predicate AtLeast<T>(le: (T, T) -> bool, x: T, ys: seq<T>) {
    forall y :: y in ys ==> le(x, y)
  }

  /** Each line in the heap comes before those its reader still holds, and after those written. */
  ghost predicate Between<T>(le: (T, T) -> bool, rest: seq<seq<T>>, heap: seq<Node<T>>, written: seq<T>) {
    forall node :: node in heap ==>
      node.lineReaderInd < |rest| && AtLeast(le, node.str, rest[node.lineReaderInd]) && AtMost(le, written, node.str)
  }

  ghost predicate Ordered<T(!new)>(le: (T, T) -> bool, rest: seq<seq<T>>, heap: seq<Node<T>>, written: seq<T>) {
    AllSorted(le, rest) && Sorted(le, written) && Between(le, rest, heap, written)
  }

  // ---- A line goes from a reader into the heap ----

  lemma FlatCons<T>(rest: seq<seq<T>>)
    requires rest != []
    ensures multiset(Flat(rest)) == multiset(rest[0]) + multiset(Flat(rest[1..]))
  {
  }

  lemma Rearranged<T>(h: multiset<T>, a: multiset<T>, x: multiset<T>, b: multiset<T>, y: multiset<T>)
    requires a + x == b + y
    ensures h + a + x == h + b + y
  {
    assert h + a + x == h + (a + x);
  }

  lemma {:induction false} FlatUpdate<T>(rest: seq<seq<T>>, i: nat, s: seq<T>)
    requires i < |rest|
    ensures multiset(Flat(rest[i := s])) + multiset(rest[i]) == multiset(Flat(rest)) + multiset(s)
  {
    FlatCons(rest);
    FlatCons(rest[i := s]);
    if i == 0 {
      assert rest[i := s][1..] == rest[1..];
      Rearranged(multiset(Flat(rest[1..])), multiset(s), multiset(rest[0]), multiset(rest[0]), multiset(s));
    } else {
      assert rest[i := s][1..] == rest[1..][i - 1 := s];
      FlatUpdate(rest[1..], i - 1, s);
      Rearranged(multiset(rest[0]), multiset(Flat(rest[1..][i - 1 := s])), multiset(rest[i]),
                 multiset(Flat(rest[1..])), multiset(s));
    }
  }

  lemma StrsAppend<T>(heap: seq<Node<T>>, node: Node<T>)
    ensures Strs(heap + [node]) == Strs(heap) + [node.str]
  {
  }

  lemma PushKeepsEverything<T>(rest: seq<seq<T>>, heap: seq<Node<T>>, written: seq<T>, i: nat)
    requires i < |rest| && rest[i] != []
    ensures Everything(rest[i := rest[i][1..]], heap + [Node(rest[i][0], i)], written) ==
      Everything(rest, heap, written)
  {
    FlatUpdate(rest, i, rest[i][1..]);
    StrsAppend(heap, Node(rest[i][0], i));
    MinusHead(rest[i]);
    Moved(multiset(Flat(rest)), multiset(rest[i]), rest[i][0], multiset(Flat(rest[i := rest[i][1..]])));
    assert multiset(Strs(heap) + [rest[i][0]]) == multiset(Strs(heap)) + multiset{rest[i][0]};
  }

  lemma Moved<T>(all: multiset<T>, from: multiset<T>, x: T, left: multiset<T>)
    requires x in from && left + from == all + (from - multiset{x})
    ensures left + multiset{x} == all
  {
    forall y ensures (left + multiset{x})[y] == all[y] {
      assert (left + from)[y] == (all + (from - multiset{x}))[y];
    }
  }

  lemma PushRepresents<T>(rest: seq<seq<T>>, heap: seq<Node<T>>, i: nat, n: nat)
    requires i < |rest| && rest[i] != []
    requires forall j {:trigger Waits(heap, j)} :: 0 <= j < n && j != i && j < |rest| && rest[j] != [] ==>
      Waits(heap, j)
    ensures Represented(rest[i := rest[i][1..]], heap + [Node(rest[i][0], i)], n)
  {
    var node := Node(rest[i][0], i);
    var next := heap + [node];
    forall j | 0 <= j < n && j < |rest| && rest[i := rest[i][1..]][j] != [] ensures Waits(next, j) {
      if j == i {
        assert node in next;
      } else {
        assert Waits(heap, j);
        var other :| other in heap && other.lineReaderInd == j;
        assert other in next;
      }
    }
  }

  lemma PushKeepsOrder<T(!new)>(le: (T, T) -> bool, rest: seq<seq<T>>, heap: seq<Node<T>>, written: seq<T>, i: nat)
    requires Ordered(le, rest, heap, written) && i < |rest| && rest[i] != [] && AtMost(le, written, rest[i][0])
    ensures Ordered(le, rest[i := rest[i][1..]], heap + [Node(rest[i][0], i)], written)
  {
  }

  // ---- A line goes from the heap to the writer ----

  lemma PopKeepsEverything<T>(rest: seq<seq<T>>, heap: seq<Node<T>>, written: seq<T>, k: nat)
    requires k < |heap|
    ensures Everything(rest, heap[..k] + heap[k + 1..], written + [heap[k].str]) == Everything(rest, heap, written)
  {
    var a, b := Strs(heap[..k]), Strs(heap[k + 1..]);
    assert Strs(heap) == a + [heap[k].str] + b;
    assert Strs(heap[..k] + heap[k + 1..]) == a + b;
  }

  lemma PopRepresents<T>(rest: seq<seq<T>>, heap: seq<Node<T>>, k: nat, n: nat)
    requires k < |heap| && Represented(rest, heap, n)
    ensures var next := heap[..k] + heap[k + 1..];
      forall j {:trigger Waits(next, j)} ::
        0 <= j < n && j != heap[k].lineReaderInd && j < |rest| && rest[j] != [] ==> Waits(next, j)
  {
    var next := heap[..k] + heap[k + 1..];
    forall j | 0 <= j < n && j != heap[k].lineReaderInd && j < |rest| && rest[j] != [] ensures Waits(next, j) {
      assert Waits(heap, j);
      var other :| other in heap && other.lineReaderInd == j;
      assert other in next;
    }
  }

  ghost predicate IsLeast<T>(le: (T, T) -> bool, heap: seq<Node<T>>, k: nat)
    requires k < |heap|
  {
    forall node :: node in heap ==> le(heap[k].str, node.str)
  }

  /** Popping the least line keeps the order, and what its reader delivers next comes after all that is written. */
  lemma PopKeepsOrder<T(!new)>(le: (T, T) -> bool, rest: seq<seq<T>>, heap: seq<Node<T>>, written: seq<T>, k: nat)
    requires TotalOrder(le) && Ordered(le, rest, heap, written) && k < |heap| && IsLeast(le, heap, k)
    ensures Ordered(le, rest, heap[..k] + heap[k + 1..], written + [heap[k].str])
    ensures var i := heap[k].lineReaderInd;
      i < |rest| && (rest[i] != [] ==> AtMost(le, written + [heap[k].str], rest[i][0]))
  {
  }

  /** With the heap empty and every reader represented, nothing is left unwritten. */
  lemma NothingLeft<T>(rest: seq<seq<T>>, written: seq<T>)
    requires Represented(rest, [], |rest|)
    ensures Everything(rest, [], written) == multiset(written)
  {
    forall i | 0 <= i < |rest| ensures rest[i] == [] {
      assert !Waits<T>([], i);
    }
    FlatOfNothing(rest);
  }

  lemma FlatOfNothing<T>(rest: seq<seq<T>>)
    requires forall i :: 0 <= i < |rest| ==> rest[i] == []
    ensures Flat(rest) == []
  {
  }

  /** Merging sorted inputs is sorting: the result is the one sorted arrangement of all the lines. */
  lemma MergedIsSorted<T(!new)>(le: (T, T) -> bool, inputs: seq<seq<T>>, written: seq<T>)
    requires TotalOrder(le) && Sorted(le, written) && multiset(written) == multiset(Flat(inputs))
    ensures written == Sort(le, Flat(inputs))
  {
    SortSorts(le, Flat(inputs));
    SortedIsUnique(le, written, Sort(le, Flat(inputs)));
  }
}
