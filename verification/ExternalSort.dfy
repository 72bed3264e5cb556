/** externalsort/sort.go: merging sorted streams of lines, and sorting files by sorting each and merging. */
module ExternalSort {
  import opened Utf8
  import opened TextLines
  import opened LineIO
  import opened MergeOrder
  import opened Sorting
  import Common
  import Seqs

  /** Go compares strings byte by byte. */
  predicate Le(a: seq<byte>, b: seq<byte>) {
    a == [] || (b != [] && (a[0] < b[0] || (a[0] == b[0] && Le(a[1..], b[1..]))))
  }

  predicate Less(a: seq<byte>, b: seq<byte>) { !Le(b, a) }

  lemma {:induction false} LeTotal(a: seq<byte>, b: seq<byte>)
    ensures Le(a, b) || Le(b, a)
    ensures Le(a, b) && Le(b, a) ==> a == b
  {
    if a != [] && b != [] && a[0] == b[0] {
      LeTotal(a[1..], b[1..]);
      Seqs.Head(a);
      Seqs.Head(b);
    }
  }

  lemma {:induction false} LeTransitive(a: seq<byte>, b: seq<byte>, c: seq<byte>)
    requires Le(a, b) && Le(b, c)
    ensures Le(a, c)
  {
    if a != [] && a[0] == b[0] && b[0] == c[0] {
      LeTransitive(a[1..], b[1..], c[1..]);
    }
  }

  lemma LeIsOrder()
    ensures TotalOrder(Le)
  {
    forall a: seq<byte>, b: seq<byte> ensures (Le(a, b) || Le(b, a)) && (Le(a, b) && Le(b, a) ==> a == b) {
      LeTotal(a, b);
    }
    forall a: seq<byte>, b: seq<byte>, c: seq<byte> | Le(a, b) && Le(b, c) ensures Le(a, c) {
      LeTransitive(a, b, c);
    }
  }

  /** `a` is a prefix of `b`, or smaller in the first byte in which they differ. */
  ghost predicate InByteOrder(a: seq<byte>, b: seq<byte>) {
    a <= b || exists i :: 0 <= i < |a| && i < |b| && a[..i] == b[..i] && a[i] < b[i]
  }

  lemma {:induction false} LeIsByteOrder(a: seq<byte>, b: seq<byte>)
    ensures Le(a, b) <==> InByteOrder(a, b)
  {
    if a != [] && b != [] && a[0] == b[0] {
      LeIsByteOrder(a[1..], b[1..]);
      SameHead(a, b);
    } else if a != [] && b != [] {
      if a[0] < b[0] { assert a[..0] == b[..0]; }
      forall i | 0 < i < |a| && i < |b| ensures a[..i] != b[..i] { assert a[..i][0] != b[..i][0]; }
    }
  }

  /** Equal first bytes do not matter. */
  lemma SameHead(a: seq<byte>, b: seq<byte>)
    requires a != [] && b != [] && a[0] == b[0]
    ensures InByteOrder(a, b) <==> InByteOrder(a[1..], b[1..])
  {
    if a[1..] <= b[1..] {
      Seqs.Head(a);
      Seqs.Head(b);
    }
    if i :| 0 <= i < |a| && i < |b| && a[..i] == b[..i] && a[i] < b[i] {
      assert a[1..][..i - 1] == a[..i][1..] && b[1..][..i - 1] == b[..i][1..];
      assert a[1..][i - 1] < b[1..][i - 1];
    }
    if i :| 0 <= i < |a[1..]| && i < |b[1..]| && a[1..][..i] == b[1..][..i] && a[1..][i] < b[1..][i] {
      assert a[..i + 1] == [a[0]] + a[1..][..i] && b[..i + 1] == [b[0]] + b[1..][..i];
      assert a[i + 1] < b[i + 1];
    }
  }

  ghost predicate Ascending(lines: seq<seq<byte>>) {
    forall i, j :: 0 <= i < j < |lines| ==> InByteOrder(lines[i], lines[j])
  }

  /** The same lines in ascending byte order; there is only one such arrangement. */
  ghost predicate SortedInto(lines: seq<seq<byte>>, sorted: seq<seq<byte>>) {
    Ascending(sorted) && multiset(sorted) == multiset(lines)
  }

  lemma SortAscends(lines: seq<seq<byte>>, sorted: seq<seq<byte>>)
    ensures sorted == Sorting.Sort(Le, lines) <==> SortedInto(lines, sorted)
  {
    LeIsOrder();
    SortSorts(Le, lines);
    forall i, j | 0 <= i < j < |sorted| ensures Le(sorted[i], sorted[j]) <==> InByteOrder(sorted[i], sorted[j]) {
      LeIsByteOrder(sorted[i], sorted[j]);
    }
    if SortedInto(lines, sorted) {
      assert Sorted(Le, sorted);
      SortedIsUnique(Le, sorted, Sorting.Sort(Le, lines));
    }
  }

  /** The text is the lines `lines`, in ascending byte order. */
  ghost predicate HoldsSorted(text: seq<byte>, lines: seq<seq<byte>>) {
    exists sorted :: SortedInto(lines, sorted) && text == Unlines(sorted)
  }

  lemma SortHolds(lines: seq<seq<byte>>)
    ensures HoldsSorted(Unlines(Sorting.Sort(Le, lines)), lines)
  {
    SortAscends(lines, Sorting.Sort(Le, lines));
  }

  ghost predicate AllAscend(inputs: seq<seq<seq<byte>>>) {
    forall i :: 0 <= i < |inputs| ==> Ascending(inputs[i])
  }

  lemma AscendingIsSorted(inputs: seq<seq<seq<byte>>>)
    requires AllAscend(inputs)
    ensures AllSorted(Le, inputs)
  {
    forall k, i, j | 0 <= k < |inputs| && 0 <= i < j < |inputs[k]| ensures Le(inputs[k][i], inputs[k][j]) {
      LeIsByteOrder(inputs[k][i], inputs[k][j]);
    }
  }

  // ---- The heap, by the contract of container/heap ----

  /** heap.Pop: removes a line no other line is less than; which of equal ones is not said. */
  method Pop(heap: seq<Node<seq<byte>>>) returns (ghost k: nat, top: Node<seq<byte>>, left: seq<Node<seq<byte>>>)
    requires heap != []
    ensures k < |heap| && top == heap[k] && left == heap[..k] + heap[k + 1..]
    ensures IsLeast(Le, heap, k)
  {
    var m := 0;
    LeTotal(heap[0].str, heap[0].str);
    for i := 1 to |heap|
      invariant m < i && forall j :: 0 <= j < i ==> Le(heap[m].str, heap[j].str)
    {
      LeTotal(heap[i].str, heap[m].str);
      if Less(heap[i].str, heap[m].str) {
        forall j | 0 <= j < i ensures Le(heap[i].str, heap[j].str) {
          LeTransitive(heap[i].str, heap[m].str, heap[j].str);
        }
        LeTotal(heap[i].str, heap[i].str);
        m := i;
      }
    }
    k, top, left := m, heap[m], heap[..m] + heap[m + 1..];
  }

  // ---- Several readers ----

  ghost function Footprint(readers: seq<LineReader>): set<object> {
    (set x | x in readers :: x as object) + (set x | x in readers :: x.buf as object) +
    (set x | x in readers :: x.r as object)
  }

  /** No two readers share a buffer or a stream. */
  ghost predicate Separate(readers: seq<LineReader>) {
    forall i, j :: 0 <= i < j < |readers| ==>
      readers[i] != readers[j] && readers[i].buf != readers[j].buf && readers[i].r != readers[j].r
  }

  /** The lines each reader will deliver. */
  ghost predicate Holds(readers: seq<LineReader>, rest: seq<seq<seq<byte>>>)
    reads Footprint(readers)
  {
    |rest| == |readers| &&
    forall i :: 0 <= i < |readers| ==> readers[i].Valid() && Lines(readers[i].Text()) == rest[i]
  }

  ghost predicate NoFaults(readers: seq<LineReader>)
    reads Footprint(readers)
  {
    forall i :: 0 <= i < |readers| ==> Faultless(readers[i].r.answers)
  }

  /** One line of one reader: `more` is false when it has none. */
  method NextLine(reader: LineReader) returns (str: seq<byte>, more: bool, failed: bool)
    requires reader.Valid()
    modifies reader.r`pos, reader.r`answers, reader.buf, reader`offset, reader`cntBytes
    ensures reader.Valid() && forall a :: a in reader.r.answers ==> a in old(reader.r.answers)
    ensures failed ==> !Faultless(old(reader.r.answers))
    ensures !failed && more ==> old(Lines(reader.Text())) == [str] + Lines(reader.Text())
    ensures !failed && !more ==> old(Lines(reader.Text())) == Lines(reader.Text()) == []
  {
    var err;
    str, err := reader.ReadLine();
    if err.Failed? {
      return [], false, true;
    }
    more, failed := !(err.Eof? && |str| == 0), false;
    if err.None? {
      Seqs.Assoc(str, [NL], reader.Text());
      LinesOfLine(str, reader.Text());
    } else {
      assert Index(str) == |str|;
    }
  }

  method Advance(readers: seq<LineReader>, i: nat, ghost rest: seq<seq<seq<byte>>>)
    returns (str: seq<byte>, more: bool, failed: bool)
    requires i < |readers| && Separate(readers) && Holds(readers, rest)
    modifies Footprint(readers)
    ensures forall j :: 0 <= j < |readers| ==> readers[j].r.data == old(readers[j].r.data)
    ensures old(NoFaults(readers)) ==> NoFaults(readers) && !failed
    ensures !failed && more ==> rest[i] != [] && str == rest[i][0] && Holds(readers, rest[i := rest[i][1..]])
    ensures !failed && !more ==> rest[i] == [] && Holds(readers, rest)
  {
    str, more, failed := NextLine(readers[i]);
  }

  // ---- Merge ----

  /** Where every line of `inputs` is while merging, the first `n` readers having been asked for a line. */
  ghost predicate Merging(inputs: seq<seq<seq<byte>>>, n: nat, rest: seq<seq<seq<byte>>>,
                          heap: seq<Node<seq<byte>>>, written: seq<seq<byte>>) {
    |rest| == |inputs| && KnownReaders(|rest|, heap) && Represented(rest, heap, n) &&
    Everything(rest, heap, written) == multiset(Flat(inputs)) &&
    (AllSorted(Le, inputs) ==> Ordered(Le, rest, heap, written))
  }

  lemma MergingStarts(inputs: seq<seq<seq<byte>>>)
    ensures Merging(inputs, 0, inputs, [], [])
  {
  }

  lemma FirstLine(inputs: seq<seq<seq<byte>>>, i: nat, rest: seq<seq<seq<byte>>>, heap: seq<Node<seq<byte>>>)
    requires Merging(inputs, i, rest, heap, []) && i < |rest|
    ensures rest[i] == [] ==> Merging(inputs, i + 1, rest, heap, [])
    ensures rest[i] != [] ==> Merging(inputs, i + 1, rest[i := rest[i][1..]], heap + [Node(rest[i][0], i)], [])
  {
    if rest[i] != [] {
      PushKeepsEverything(rest, heap, [], i);
      PushRepresents(rest, heap, i, i + 1);
      if AllSorted(Le, inputs) {
        PushKeepsOrder(Le, rest, heap, [], i);
      }
    }
  }

  lemma NextRound(inputs: seq<seq<seq<byte>>>, rest: seq<seq<seq<byte>>>, heap: seq<Node<seq<byte>>>,
                  written: seq<seq<byte>>, k: nat)
    requires Merging(inputs, |inputs|, rest, heap, written) && k < |heap| && IsLeast(Le, heap, k)
    ensures heap[k].lineReaderInd < |rest|
    ensures var i := heap[k].lineReaderInd; rest[i] == [] ==>
      Merging(inputs, |inputs|, rest, heap[..k] + heap[k + 1..], written + [heap[k].str])
    ensures var i := heap[k].lineReaderInd; rest[i] != [] ==>
      Merging(inputs, |inputs|, rest[i := rest[i][1..]], heap[..k] + heap[k + 1..] + [Node(rest[i][0], i)],
              written + [heap[k].str])
  {
    var i, left, more := heap[k].lineReaderInd, heap[..k] + heap[k + 1..], written + [heap[k].str];
    assert heap[k] in heap;
    PopKeepsEverything(rest, heap, written, k);
    PopRepresents(rest, heap, k, |inputs|);
    if AllSorted(Le, inputs) {
      LeIsOrder();
      PopKeepsOrder(Le, rest, heap, written, k);
    }
    if rest[i] != [] {
      PushKeepsEverything(rest, left, more, i);
      PushRepresents(rest, left, i, |inputs|);
      if AllSorted(Le, inputs) {
        PushKeepsOrder(Le, rest, left, more, i);
      }
    }
  }

  /** The lines come out rearranged, and sorted if each input is: then the output is the sorted arrangement. */
  lemma MergingEnds(inputs: seq<seq<seq<byte>>>, rest: seq<seq<seq<byte>>>, written: seq<seq<byte>>)
    requires Merging(inputs, |inputs|, rest, [], written)
    ensures multiset(written) == multiset(Flat(inputs))
    ensures AllSorted(Le, inputs) ==> written == Sorting.Sort(Le, Flat(inputs))
  {
    NothingLeft(rest, written);
    LeIsOrder();
    if AllSorted(Le, inputs) {
      MergedIsSorted(Le, inputs, written);
    }
  }

  method FirstLines(readers: seq<LineReader>, ghost inputs: seq<seq<seq<byte>>>)
    returns (strheap: seq<Node<seq<byte>>>, failed: bool, ghost rest: seq<seq<seq<byte>>>)
    requires Separate(readers) && Holds(readers, inputs)
    modifies Footprint(readers)
    ensures forall j :: 0 <= j < |readers| ==> readers[j].r.data == old(readers[j].r.data)
    ensures old(NoFaults(readers)) ==> NoFaults(readers) && !failed
    ensures !failed ==> Holds(readers, rest) && Merging(inputs, |inputs|, rest, strheap, [])
  {
    strheap, failed, rest := [], false, inputs;
    MergingStarts(inputs);
    for i := 0 to |readers|
      invariant forall j :: 0 <= j < |readers| ==> readers[j].r.data == old(readers[j].r.data)
      invariant old(NoFaults(readers)) ==> NoFaults(readers)
      invariant Holds(readers, rest) && Merging(inputs, i, rest, strheap, [])
    {
      var str, more, bad := Advance(readers, i, rest);
      if bad { return strheap, true, rest; }
      FirstLine(inputs, i, rest, strheap);
      if more {
        strheap := strheap + [Node(str, i)];
        rest := rest[i := rest[i][1..]];
      }
    }
  }

  lemma LessWork(rest: seq<seq<seq<byte>>>, i: nat)
    requires i < |rest| && rest[i] != []
    ensures |Flat(rest[i := rest[i][1..]])| < |Flat(rest)|
  {
    FlatUpdate(rest, i, rest[i][1..]);
    var after := rest[i := rest[i][1..]];
    assert |multiset(Flat(after)) + multiset(rest[i])| == |Flat(after)| + |rest[i]|;
    assert |multiset(Flat(rest)) + multiset(rest[i][1..])| == |Flat(rest)| + |rest[i][1..]|;
  }

  /** What has been written so far, as lines added to what the stream held before. */
  ghost predicate Wrote(w: LineWriter, before: seq<byte>, written: seq<seq<byte>>)
    reads w.w
  {
    w.w.Valid() && w.w.pos == |w.w.data| && w.w.data == before + Unlines(written)
  }

  method WriteLine(w: LineWriter, str: seq<byte>, ghost before: seq<byte>, ghost written: seq<seq<byte>>)
    returns (err: Error)
    requires Wrote(w, before, written)
    modifies w.w
    ensures err in {None, Failed} && (old(true !in w.w.faults) ==> err == None && true !in w.w.faults)
    ensures err == None ==> Wrote(w, before, written + [str])
  {
    err := w.Write(str);
    UnlinesAppend(written, str);
    Seqs.Assoc(before, Unlines(written), str + [NL]);
  }

  /** Puts the next line of reader `i`, if it has one, into the heap. */
  method Replace(readers: seq<LineReader>, i: nat, strheap: seq<Node<seq<byte>>>, ghost rest: seq<seq<seq<byte>>>)
    returns (heap: seq<Node<seq<byte>>>, failed: bool, ghost left: seq<seq<seq<byte>>>)
    requires i < |readers| && Separate(readers) && Holds(readers, rest)
    modifies Footprint(readers)
    ensures forall j :: 0 <= j < |readers| ==> readers[j].r.data == old(readers[j].r.data)
    ensures old(NoFaults(readers)) ==> NoFaults(readers) && !failed
    ensures !failed ==> Holds(readers, left)
    ensures !failed && rest[i] == [] ==> left == rest && heap == strheap
    ensures !failed && rest[i] != [] ==> left == rest[i := rest[i][1..]] && heap == strheap + [Node(rest[i][0], i)]
    ensures !failed ==> |Flat(left)| + |heap| <= |Flat(rest)| + |strheap|
  {
    heap, left := strheap, rest;
    var str, more;
    str, more, failed := Advance(readers, i, rest);
    if !failed && more {
      LessWork(rest, i);
      heap := strheap + [Node(str, i)];
      left := rest[i := rest[i][1..]];
    }
  }

  /** The least line of the heap is written; its reader's next line takes its place. */
  method Round(w: LineWriter, readers: seq<LineReader>, strheap: seq<Node<seq<byte>>>, ghost before: seq<byte>,
               ghost inputs: seq<seq<seq<byte>>>, ghost rest: seq<seq<seq<byte>>>, ghost written: seq<seq<byte>>)
    returns (heap: seq<Node<seq<byte>>>, err: Error, ghost left: seq<seq<seq<byte>>>, ghost more: seq<seq<byte>>)
    requires Separate(readers) && Holds(readers, rest) && w.w !in Footprint(readers) && strheap != []
    requires Wrote(w, before, written) && Merging(inputs, |inputs|, rest, strheap, written)
    modifies Footprint(readers), w.w
    ensures forall j :: 0 <= j < |readers| ==> readers[j].r.data == old(readers[j].r.data)
    ensures err in {None, Failed} && (old(NoFaults(readers) && true !in w.w.faults) ==>
      err == None && NoFaults(readers) && true !in w.w.faults)
    ensures err == None ==> Wrote(w, before, more) && Holds(readers, left)
    ensures err == None ==> Merging(inputs, |inputs|, left, heap, more)
    ensures err == None ==> |Flat(left)| + |heap| < |Flat(rest)| + |strheap|
  {
    ghost var k; var top;
    k, top, heap := Pop(strheap);
    NextRound(inputs, rest, strheap, written, k);
    left, more := rest, written + [top.str];
    err := WriteLine(w, top.str, before, written);
    if err == None {
      var failed;
      heap, failed, left := Replace(readers, top.lineReaderInd, heap, rest);
      err := if failed then Failed else None;
    }
  }

  /**
   * All lines of all readers are written, in some order; if every reader's lines are sorted, in sorted
   * order. Nothing but a failing stream makes it fail.
   */
  method Merge(w: LineWriter, readers: seq<LineReader>, ghost inputs: seq<seq<seq<byte>>>)
    returns (err: Error, ghost written: seq<seq<byte>>)
    requires Separate(readers) && Holds(readers, inputs)
    requires w.w.Valid() && w.w.pos == |w.w.data| && w.w !in Footprint(readers)
    modifies Footprint(readers), w.w
    ensures forall j :: 0 <= j < |readers| ==> readers[j].r.data == old(readers[j].r.data)
    ensures err in {None, Failed} && (old(NoFaults(readers) && true !in w.w.faults) ==> err == None)
    ensures err == None ==> Wrote(w, old(w.w.data), written)
    ensures err == None ==> multiset(written) == multiset(Flat(inputs))
    ensures err == None && AllSorted(Le, inputs) ==> written == Sorting.Sort(Le, Flat(inputs))
    ensures err == None && AllAscend(inputs) ==> SortedInto(Flat(inputs), written)
  {
    written := [];
    var strheap, failed; ghost var rest;
    strheap, failed, rest := FirstLines(readers, inputs);
    if failed { return Failed, []; }
    Seqs.All(w.w.data);
    while |strheap| != 0
      invariant forall j :: 0 <= j < |readers| ==> readers[j].r.data == old(readers[j].r.data)
      invariant old(NoFaults(readers) && true !in w.w.faults) ==> NoFaults(readers) && true !in w.w.faults
      invariant Wrote(w, old(w.w.data), written)
      invariant Holds(readers, rest) && Merging(inputs, |inputs|, rest, strheap, written)
      decreases |Flat(rest)| + |strheap|
    {
      strheap, err, rest, written := Round(w, readers, strheap, old(w.w.data), inputs, rest, written);
      if err != None { return err, written; }
    }
    MergingEnds(inputs, rest, written);
    SortAscends(Flat(inputs), written);
    if AllAscend(inputs) { AscendingIsSorted(inputs); }
    return None, written;
  }

  // ---- Sort ----

  function LinesOf(texts: seq<seq<byte>>): (lines: seq<seq<seq<byte>>>)
    ensures |lines| == |texts| && forall i :: 0 <= i < |texts| ==> lines[i] == Lines(texts[i])
  {
    seq(|texts|, i requires 0 <= i < |texts| => Lines(texts[i]))
  }

  function SortedLinesOf(texts: seq<seq<byte>>): (lines: seq<seq<seq<byte>>>)
    ensures |lines| == |texts| && forall i :: 0 <= i < |texts| ==> lines[i] == Sorting.Sort(Le, Lines(texts[i]))
  {
    seq(|texts|, i requires 0 <= i < |texts| => Sorting.Sort(Le, Lines(texts[i])))
  }

  lemma {:induction false} SameElements(a: seq<seq<seq<byte>>>, b: seq<seq<seq<byte>>>)
    requires |a| == |b| && forall i :: 0 <= i < |a| ==> multiset(a[i]) == multiset(b[i])
    ensures multiset(Flat(a)) == multiset(Flat(b))
  {
    if a != [] {
      SameElements(a[1..], b[1..]);
      FlatCons(a);
      FlatCons(b);
    }
  }

  /** Sorting each text first changes nothing about the sorted whole. */
  lemma SortingInParts(texts: seq<seq<byte>>)
    ensures AllSorted(Le, SortedLinesOf(texts))
    ensures Sorting.Sort(Le, Flat(SortedLinesOf(texts))) == Sorting.Sort(Le, Flat(LinesOf(texts)))
  {
    LeIsOrder();
    forall i | 0 <= i < |texts|
      ensures Sorted(Le, SortedLinesOf(texts)[i]) && multiset(SortedLinesOf(texts)[i]) == multiset(LinesOf(texts)[i])
    {
      SortSorts(Le, Lines(texts[i]));
    }
    var a, b := Flat(SortedLinesOf(texts)), Flat(LinesOf(texts));
    SameElements(SortedLinesOf(texts), LinesOf(texts));
    SortSorts(Le, a);
    SortSorts(Le, b);
    SortedIsUnique(Le, Sorting.Sort(Le, a), Sorting.Sort(Le, b));
  }

  /** The lines read from a file, sorted, are still lines, so that writing them to the file keeps them apart. */
  lemma SortedAreLines(text: seq<byte>)
    ensures Lines(Unlines(Sorting.Sort(Le, Lines(text)))) == Sorting.Sort(Le, Lines(text))
  {
    LeIsOrder();
    UnlinesAfterLines(text);
    var sorted := Sorting.Sort(Le, Lines(text));
    SortSorts(Le, Lines(text));
    forall l | l in sorted ensures NL !in l {
      assert l in multiset(sorted);
    }
    LinesAfterUnlines(sorted);
  }

  /** Reads a file to its end. */
  method ReadLines(file: File) returns (lines: seq<seq<byte>>, failed: bool)
    requires file.Valid() && file.pos == 0
    modifies file`pos, file`answers
    ensures file.Valid()
    ensures old(Faultless(file.answers)) ==> !failed && Faultless(file.answers)
    ensures !failed ==> lines == Lines(file.data)
  {
    var lr := new LineReader(file);
    lines := [];
    Seqs.All(file.data);
    ghost var left := Lines(lr.Text());
    while true
      invariant fresh(lr) && fresh(lr.buf) && lr.r == file && lr.Valid()
      invariant left == Lines(lr.Text()) && lines + left == Lines(file.data)
      invariant old(Faultless(file.answers)) ==> Faultless(file.answers)
      decreases |left|
    {
      var str, more, bad := NextLine(lr);
      if bad { return lines, true; }
      if !more { return lines, false; }
      Seqs.Assoc(lines, [str], Lines(lr.Text()));
      lines := lines + [str];
      left := Lines(lr.Text());
    }
  }

  method WriteLines(file: File, lines: seq<seq<byte>>) returns (err: Error)
    requires file.Valid() && file.data == [] && file.pos == 0
    modifies file`data, file`pos, file`faults
    ensures file.Valid() && err in {None, Failed}
    ensures old(true !in file.faults) ==> err == None
    ensures err == None ==> file.data == Unlines(lines)
  {
    var lw := new LineWriter(file);
    for i := 0 to |lines|
      invariant file.Valid() && file.pos == |file.data| && file.data == Unlines(lines[..i])
      invariant old(true !in file.faults) ==> true !in file.faults
    {
      err := lw.Write(lines[i]);
      if err != None { return; }
      assert lines[..i + 1] == lines[..i] + [lines[i]];
      UnlinesAppend(lines[..i], lines[i]);
    }
    assert lines[..|lines|] == lines;
    err := None;
  }

  /** Replaces the lines of a file by the same lines in order, and starts reading them. */
  method SortFile(file: File) returns (reader: LineReader, err: Error)
    modifies file
    ensures fresh(reader) && fresh(reader.buf) && reader.r == file && err in {None, Failed}
    ensures old(file.Sound()) ==> err == None && Faultless(file.answers)
    ensures err == None ==> reader.Valid() && file.data == Unlines(Sorting.Sort(Le, Lines(old(file.data))))
    ensures err == None ==> Lines(reader.Text()) == Sorting.Sort(Le, Lines(old(file.data)))
    ensures err == None ==> HoldsSorted(file.data, Lines(old(file.data)))
  {
    file.SeekToStart();
    var lines, failed := ReadLines(file);
    var sorted := Sorting.Sort(Le, lines);
    if !failed {
      file.SeekToStart();
      file.Truncate();
      err := WriteLines(file, sorted);
      SortedAreLines(old(file.data));
    } else {
      err := Failed;
    }
    file.SeekToStart();
    Seqs.All(file.data);
    SortHolds(Lines(old(file.data)));
    reader := new LineReader(file);
  }

  /** The file holds its lines sorted, and the reader is at its start. */
  ghost predicate Ready(reader: LineReader, file: File, text: seq<byte>)
    reads reader, reader.buf, reader.r
  {
    reader.r == file && reader.Valid() && file.data == Unlines(Sorting.Sort(Le, Lines(text))) &&
    Lines(reader.Text()) == Sorting.Sort(Le, Lines(text))
  }

  /** The first files sorted and opened for reading, the others untouched. */
  ghost predicate Prepared(files: seq<File>, readers: seq<LineReader>, texts: seq<seq<byte>>)
    reads Footprint(readers), files
  {
    |texts| == |files| && |readers| <= |files| && Separate(readers) &&
    (forall i :: 0 <= i < |readers| ==> Ready(readers[i], files[i], texts[i])) &&
    (forall i :: |readers| <= i < |files| ==> files[i].data == texts[i])
  }

  /** No stream fails: neither those being read already nor the files still to be sorted. */
  ghost predicate AllSound(files: seq<File>, readers: seq<LineReader>)
    reads Footprint(readers), files
  {
    NoFaults(readers) && forall i :: |readers| <= i < |files| ==> files[i].Sound()
  }

  ghost predicate SortedFiles(files: seq<File>, texts: seq<seq<byte>>)
    requires |texts| == |files|
    reads files
  {
    forall i :: 0 <= i < |files| ==> files[i].data == Unlines(Sorting.Sort(Le, Lines(texts[i])))
  }

  lemma SeparateMore(readers: seq<LineReader>, reader: LineReader)
    requires Separate(readers)
    requires forall r :: r in readers ==> r != reader && r.buf != reader.buf && r.r != reader.r
    ensures Separate(readers + [reader])
  {
  }

  method PrepareNext(files: seq<File>, readers: seq<LineReader>, ghost texts: seq<seq<byte>>)
    returns (reader: LineReader, err: Error)
    requires |readers| < |files| && Common.Distinct(files) && Prepared(files, readers, texts)
    modifies files[|readers|]
    ensures err in {None, Failed} && fresh(reader) && fresh(reader.buf) && reader.r == files[|readers|]
    ensures Separate(readers + [reader])
    ensures err == None ==> Prepared(files, readers + [reader], texts)
    ensures old(AllSound(files, readers)) ==> err == None && AllSound(files, readers + [reader])
  {
    var n := |readers|;
    reader, err := SortFile(files[n]);
    assert forall i :: 0 <= i < n ==> readers[i].r == files[i] != files[n] by {
      assert forall i :: 0 <= i < n ==> old(Ready(readers[i], files[i], texts[i]));
    }
    SeparateMore(readers, reader);
    forall i | 0 <= i < n ensures Ready(readers[i], files[i], texts[i]) {
      assert old(Ready(readers[i], files[i], texts[i]));
    }
  }

  method PrepareAll(files: seq<File>, ghost texts: seq<seq<byte>>) returns (readers: seq<LineReader>, err: Error)
    requires Common.Distinct(files)
    requires |texts| == |files| && forall i :: 0 <= i < |files| ==> files[i].data == texts[i]
    modifies files
    ensures err in {None, Failed}
    ensures forall r :: r in readers ==> fresh(r) && fresh(r.buf) && r.r in files
    ensures err == None ==> |readers| == |files| && Prepared(files, readers, texts)
    ensures old(AllSound(files, [])) ==> err == None && NoFaults(readers)
  {
    readers, err := [], None;
    for n := 0 to |files|
      invariant n == |readers| && Prepared(files, readers, texts) && err == None
      invariant forall r :: r in readers ==> fresh(r) && fresh(r.buf) && r.r in files
      invariant old(AllSound(files, [])) ==> AllSound(files, readers)
    {
      var reader;
      reader, err := PrepareNext(files, readers, texts);
      readers := readers + [reader];
      if err != None { return; }
    }
  }

  lemma PreparedHolds(w: File, files: seq<File>, readers: seq<LineReader>, texts: seq<seq<byte>>)
    requires Prepared(files, readers, texts) && |readers| == |files| && w !in files
    ensures Holds(readers, SortedLinesOf(texts)) && SortedFiles(files, texts) && w !in Footprint(readers)
    ensures forall i :: 0 <= i < |files| ==> readers[i].r == files[i]
  {
  }

  /** Writes the lines of all the prepared files, in order. */
  method MergePrepared(w: File, files: seq<File>, readers: seq<LineReader>, ghost texts: seq<seq<byte>>)
    returns (err: Error)
    requires w.Valid() && w.pos == |w.data| && w !in files
    requires |readers| == |files| && Prepared(files, readers, texts)
    modifies w, Footprint(readers)
    ensures err in {None, Failed} && (old(true !in w.faults && NoFaults(readers)) ==> err == None)
    ensures err == None ==> w.data == old(w.data) + Unlines(Sorting.Sort(Le, Flat(LinesOf(texts))))
    ensures SortedFiles(files, texts)
  {
    PreparedHolds(w, files, readers, texts);
    SortingInParts(texts);
    var lw := new LineWriter(w);
    ghost var written;
    err, written := Merge(lw, readers, SortedLinesOf(texts));
    forall i | 0 <= i < |files| ensures files[i].data == Unlines(Sorting.Sort(Le, Lines(texts[i]))) {
      assert readers[i].r.data == old(readers[i].r.data);
    }
  }

  lemma AllHoldSorted(files: seq<File>, texts: seq<seq<byte>>)
    requires |texts| == |files|
    ensures SortedFiles(files, texts) ==> forall i :: 0 <= i < |files| ==> HoldsSorted(files[i].data, Lines(texts[i]))
  {
    forall i | 0 <= i < |files|
      ensures HoldsSorted(Unlines(Sorting.Sort(Le, Lines(texts[i]))), Lines(texts[i]))
    {
      SortHolds(Lines(texts[i]));
    }
  }

  lemma TailHoldsSorted(before: seq<byte>, lines: seq<seq<byte>>)
    ensures HoldsSorted((before + Unlines(Sorting.Sort(Le, lines)))[|before|..], lines)
  {
    var added := Unlines(Sorting.Sort(Le, lines));
    assert (before + added)[|before|..] == added;
    SortHolds(lines);
  }

  /**
   * Sort over distinct files: the stream receives the sorted arrangement of the lines of all of
   * them, and each file is left with its own lines sorted. Only a failing stream makes it fail.
   */
  method Sort(w: File, files: seq<File>, ghost texts: seq<seq<byte>>) returns (err: Error)
    requires w.Valid() && w.pos == |w.data| && w !in files
    requires Common.Distinct(files)
    requires |texts| == |files| && forall i :: 0 <= i < |files| ==> files[i].data == texts[i]
    modifies w, files
    ensures err in {None, Failed}
    ensures old(true !in w.faults && AllSound(files, [])) ==> err == None
    ensures err == None ==> w.data == old(w.data) + Unlines(Sorting.Sort(Le, Flat(LinesOf(texts))))
    ensures err == None ==> HoldsSorted(w.data[old(|w.data|)..], Flat(LinesOf(texts)))
    ensures err == None ==> SortedFiles(files, texts)
    ensures err == None ==> forall i :: 0 <= i < |files| ==> HoldsSorted(files[i].data, Lines(texts[i]))
  {
    var readers;
    readers, err := PrepareAll(files, texts);
    if err != None { return; }
    err := MergePrepared(w, files, readers, texts);
    AllHoldSorted(files, texts);
    if err == None { TailHoldsSorted(old(w.data), Flat(LinesOf(texts))); }
  }
}
