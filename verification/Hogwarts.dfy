/** hogwarts/courselist.go: ordering courses so that prerequisites come first (Kahn's algorithm). */
module Hogwarts {
  import opened Common
  import Seqs

  datatype Course = Course(name: string)

  /** For each course the list of its prerequisites, possibly with repetitions. */
  type Graph = map<Course, seq<Course>>

  function Prereqs(g: Graph, c: Course): seq<Course> { if c in g then g[c] else [] }

  /** The courses `done` and all the courses their lists name. */
  function Mentioned(g: Graph, done: set<Course>): set<Course> {
    done + set u, v | u in done && v in Prereqs(g, u) :: v
  }

  /** Every course mentioned. */
  function Courses(g: Graph): set<Course> { Mentioned(g, g.Keys) }

  /** A walk from each course to one of its prerequisites. */
  ghost predicate Walk(g: Graph, p: seq<Course>) {
    forall i :: 0 <= i < |p| - 1 ==> p[i + 1] in Prereqs(g, p[i])
  }

  ghost predicate HasCycle(g: Graph) {
    exists p :: |p| >= 2 && Walk(g, p) && p[0] == p[|p| - 1]
  }

  /** What the caller wants: every course once, and all of a course's prerequisites before it. */
  ghost predicate ValidOrder(g: Graph, s: seq<Course>) {
    Distinct(s) && (set c | c in s) == Courses(g) &&
    forall i, v :: 0 <= i < |s| && v in Prereqs(g, s[i]) ==> v in s[..i]
  }

  // ---- Cycles ----

  /** Along a walk the positions in a valid order go down, so no walk comes back. */
  lemma {:induction false} WalkDescends(g: Graph, s: seq<Course>, p: seq<Course>, i: nat, j: nat)
    returns (a: nat, b: nat)
    requires ValidOrder(g, s) && Walk(g, p) && i < j < |p|
    ensures b < a < |s| && s[a] == p[i] && s[b] == p[j]
    decreases j
  {
    if j == i + 1 {
      a, b := Step(g, s, p[i], p[j]);
    } else {
      var m;
      a, m := WalkDescends(g, s, p, i, j - 1);
      var m';
      m', b := Step(g, s, p[j - 1], p[j]);
      assert m == m';
    }
  }

  lemma Step(g: Graph, s: seq<Course>, u: Course, v: Course) returns (a: nat, b: nat)
    requires ValidOrder(g, s) && v in Prereqs(g, u)
    ensures b < a < |s| && s[a] == u && s[b] == v
  {
    assert u in Courses(g);
    assert u in (set c | c in s);
    a :| a < |s| && s[a] == u;
    assert v in s[..a];
    b :| b < a && s[b] == v;
  }

  lemma OrderedMeansAcyclic(g: Graph, s: seq<Course>)
    requires ValidOrder(g, s)
    ensures !HasCycle(g)
  {
    if HasCycle(g) {
      var p :| |p| >= 2 && Walk(g, p) && p[0] == p[|p| - 1];
      var a, b := WalkDescends(g, s, p, 0, |p| - 1);
    }
  }

  ghost predicate Needed(g: Graph, r: set<Course>, v: Course) {
    exists u :: u in r && v in Prereqs(g, u)
  }

  /** Every course of `r` is a prerequisite of another one in `r`. */
  ghost predicate NeededWithin(g: Graph, r: set<Course>) {
    forall v {:trigger Needed(g, r, v)} :: v in r ==> Needed(g, r, v)
  }

  lemma {:induction false} DistinctIsSmall(s: seq<Course>, r: set<Course>)
    requires Distinct(s) && forall c :: c in s ==> c in r
    ensures |s| <= |r|
  {
    if s != [] {
      DistinctIsSmall(s[1..], r - {s[0]});
    }
  }

  lemma Prepend(g: Graph, u: Course, p: seq<Course>)
    requires p != [] && Walk(g, p) && p[0] in Prereqs(g, u)
    ensures Walk(g, [u] + p)
  {
  }

  lemma Prefix(g: Graph, p: seq<Course>, n: nat)
    requires n <= |p| && Walk(g, p)
    ensures Walk(g, p[..n])
  {
  }

  lemma CloseCycle(g: Graph, u: Course, p: seq<Course>, k: nat)
    requires k < |p| && p[k] == u && Walk(g, p) && p[0] in Prereqs(g, u)
    ensures HasCycle(g)
  {
    Prepend(g, u, p);
    var q := [u] + p;
    Prefix(g, q, k + 2);
    var c := q[..k + 2];
    assert |c| >= 2 && c[0] == c[|c| - 1];
  }

  /** Walking backwards inside a finite set must come back to a course already seen. */
  lemma {:induction false} BackwardWalkCycles(g: Graph, r: set<Course>, p: seq<Course>)
    requires NeededWithin(g, r) && p != [] && Walk(g, p) && Distinct(p) && forall c :: c in p ==> c in r
    ensures HasCycle(g)
    decreases |r| - |p|
  {
    assert Needed(g, r, p[0]);
    var u :| u in r && p[0] in Prereqs(g, u);
    if k :| 0 <= k < |p| && p[k] == u {
      CloseCycle(g, u, p, k);
    } else {
      var q := [u] + p;
      Prepend(g, u, p);
      DistinctIsSmall(q, r);
      BackwardWalkCycles(g, r, q);
    }
  }

  // ---- Degrees ----

  /** How many prerequisite entries of the courses in `s` name `v`. */
  ghost function Degree(g: Graph, s: set<Course>, v: Course): nat
    decreases |s|
  {
    if s == {} then 0
    else var u :| u in s; multiset(Prereqs(g, u))[v] + Degree(g, s - {u}, v)
  }

  lemma {:induction false} DegreeWithout(g: Graph, s: set<Course>, u: Course, v: Course)
    requires u in s
    ensures Degree(g, s, v) == multiset(Prereqs(g, u))[v] + Degree(g, s - {u}, v)
    decreases |s|
  {
    var w :| w in s && Degree(g, s, v) == multiset(Prereqs(g, w))[v] + Degree(g, s - {w}, v);
    if w != u {
      DegreeWithout(g, s - {w}, u, v);
      DegreeWithout(g, s - {u}, w, v);
      assert s - {w} - {u} == s - {u} - {w};
    }
  }

  lemma {:induction false} DegreeZero(g: Graph, s: set<Course>, v: Course)
    ensures Degree(g, s, v) == 0 <==> forall u :: u in s ==> v !in Prereqs(g, u)
    decreases |s|
  {
    if u :| u in s {
      DegreeWithout(g, s, u, v);
      DegreeZero(g, s - {u}, v);
      if Degree(g, s, v) == 0 {
        forall w | w in s ensures v !in Prereqs(g, w) {
          if w != u { assert w in s - {u}; }
        }
      }
    }
  }

  lemma {:induction false} DegreeOfLeaves(g: Graph, s: set<Course>, leaves: set<Course>, v: Course)
    requires s !! leaves && forall u :: u in leaves ==> Prereqs(g, u) == []
    ensures Degree(g, s + leaves, v) == Degree(g, s, v)
    decreases |leaves|
  {
    if u :| u in leaves {
      DegreeWithout(g, s + leaves, u, v);
      assert s + leaves - {u} == s + (leaves - {u});
      DegreeOfLeaves(g, s, leaves - {u}, v);
    } else {
      assert s + leaves == s;
    }
  }

  // ---- Kahn's algorithm ----

  /** Reading a Go map of counters: an absent key reads as zero. */
  function Get(degrees: map<Course, int>, v: Course): int { if v in degrees then degrees[v] else 0 }

  /** The counter of `v` is the number of entries naming it in the lists of the courses `r` and in `rest`. */
  ghost predicate Counts(g: Graph, r: set<Course>, rest: seq<Course>, degrees: map<Course, int>) {
    forall v :: Get(degrees, v) == Degree(g, r, v) + multiset(rest)[v]
  }

  /** Each course whose counter is zero is in the answer or in the queue, once; no other course is. */
  ghost predicate Queued(g: Graph, done: seq<Course>, degrees: map<Course, int>) {
    Distinct(done) && forall v :: v in done <==> v in Courses(g) && Get(degrees, v) == 0
  }

  /** Whoever needs a listed course is listed before it. */
  ghost predicate NeedersFirst(g: Graph, ans: seq<Course>) {
    forall i, u :: 0 <= i < |ans| && ans[i] in Prereqs(g, u) ==> u in ans[..i]
  }

  function Elements(s: seq<Course>): set<Course> { set c | c in s }

  lemma CountsOne(g: Graph, r: set<Course>, rest: seq<Course>, n: Course, degrees: map<Course, int>)
    requires Counts(g, r, [n] + rest, degrees)
    ensures Counts(g, r, rest, degrees[n := Get(degrees, n) - 1]) && Get(degrees, n) > 0
  {
  }

  lemma QueuedOne(g: Graph, done: seq<Course>, n: Course, degrees: map<Course, int>)
    requires Queued(g, done, degrees) && n in Courses(g) && Get(degrees, n) > 0
    ensures Get(degrees, n) == 1 ==> Queued(g, done + [n], degrees[n := 0])
    ensures Get(degrees, n) > 1 ==> Queued(g, done, degrees[n := Get(degrees, n) - 1])
  {
  }

  lemma CountsNext(g: Graph, r: set<Course>, u: Course, degrees: map<Course, int>)
    requires u in r && Counts(g, r, [], degrees)
    ensures Counts(g, r - {u}, Prereqs(g, u), degrees)
  {
    forall v ensures Get(degrees, v) == Degree(g, r - {u}, v) + multiset(Prereqs(g, u))[v] {
      DegreeWithout(g, r, u, v);
    }
  }

  /** A queued course is needed by nobody that is still to be listed. */
  lemma ListNext(g: Graph, ans: seq<Course>, u: Course, degrees: map<Course, int>)
    requires NeedersFirst(g, ans) && Get(degrees, u) == 0
    requires Counts(g, Courses(g) - Elements(ans), [], degrees)
    ensures NeedersFirst(g, ans + [u])
  {
    var next := ans + [u];
    DegreeZero(g, Courses(g) - Elements(ans), u);
    forall i, w | 0 <= i < |next| && next[i] in Prereqs(g, w) ensures w in next[..i] {
      assert w in Courses(g);
      if i < |ans| {
        assert next[..i] == ans[..i];
      } else {
        assert next[..i] == ans;
      }
    }
  }

  lemma StillNeeded(g: Graph, r: set<Course>, v: Course)
    requires Degree(g, r, v) > 0
    ensures Needed(g, r, v)
  {
  }

  lemma AllNeeded(g: Graph, r: set<Course>, degrees: map<Course, int>)
    requires Counts(g, r, [], degrees) && forall v :: v in r ==> Get(degrees, v) != 0
    ensures NeededWithin(g, r)
  {
    forall v | v in r ensures Needed(g, r, v) {
      assert Get(degrees, v) == Degree(g, r, v) + multiset([])[v];
      StillNeeded(g, r, v);
    }
  }

  lemma StuckMeansCycle(g: Graph, ans: seq<Course>, degrees: map<Course, int>, c: Course)
    requires Queued(g, ans, degrees) && Counts(g, Courses(g) - Elements(ans), [], degrees)
    requires c in Courses(g) && c !in ans
    ensures HasCycle(g)
  {
    AllNeeded(g, Courses(g) - Elements(ans), degrees);
    BackwardWalkCycles(g, Courses(g) - Elements(ans), [c]);
  }

  function Reversed(s: seq<Course>): (r: seq<Course>)
    ensures |r| == |s| && forall i :: 0 <= i < |s| ==> r[i] == s[|s| - 1 - i]
  {
    if s == [] then [] else Reversed(s[1..]) + [s[0]]
  }

  lemma ReversedIsValid(g: Graph, ans: seq<Course>)
    requires Distinct(ans) && Elements(ans) == Courses(g) && NeedersFirst(g, ans)
    ensures ValidOrder(g, Reversed(ans))
  {
    var s := Reversed(ans);
    forall c ensures c in s <==> c in ans {
      if c in ans {
        var i :| 0 <= i < |ans| && ans[i] == c;
        assert s[|ans| - 1 - i] == c;
      }
    }
    assert (set c | c in s) == Courses(g);
    forall i, v | 0 <= i < |s| && v in Prereqs(g, s[i]) ensures v in s[..i] {
      assert v in Courses(g);
      assert v in Elements(ans);
      var j :| 0 <= j < |ans| && ans[j] == v;
      assert s[i] in ans[..j];
      assert s[|ans| - 1 - j] == v;
    }
  }

  lemma SameSize(a: set<Course>, b: set<Course>)
    requires a <= b && |a| == |b|
    ensures a == b
  {
    assert b == a + (b - a);
    assert |b - a| == 0;
  }

  lemma ElementsSize(s: seq<Course>)
    requires Distinct(s)
    ensures |Elements(s)| == |s|
  {
    if s != [] {
      ElementsSize(s[1..]);
      assert Elements(s) == Elements(s[1..]) + {s[0]};
    }
  }

  lemma MentionedNext(g: Graph, done: set<Course>, u: Course)
    ensures Mentioned(g, done + {u}) == Mentioned(g, done) + {u} + Elements(Prereqs(g, u))
  {
  }

  lemma CountsMore(g: Graph, r: set<Course>, seen: seq<Course>, n: Course, degrees: map<Course, int>)
    requires Counts(g, r, seen, degrees)
    ensures Counts(g, r, seen + [n], degrees[n := Get(degrees, n) + 1])
  {
  }

  lemma CountsClose(g: Graph, r: set<Course>, u: Course, degrees: map<Course, int>)
    requires u !in r && Counts(g, r, Prereqs(g, u), degrees)
    ensures Counts(g, r + {u}, [], degrees)
  {
    forall v ensures Get(degrees, v) == Degree(g, r + {u}, v) + multiset([])[v] {
      DegreeWithout(g, r + {u}, u, v);
      assert r + {u} - {u} == r;
    }
  }

  lemma CountsEverything(g: Graph, degrees: map<Course, int>)
    requires Counts(g, g.Keys, [], degrees)
    ensures Counts(g, Courses(g), [], degrees)
  {
    forall v ensures Get(degrees, v) == Degree(g, Courses(g), v) + multiset([])[v] {
      assert g.Keys + (Courses(g) - g.Keys) == Courses(g);
      DegreeOfLeaves(g, g.Keys, Courses(g) - g.Keys, v);
    }
  }

  method CountDegrees(g: Graph) returns (uniqueVert: set<Course>, degrees: map<Course, int>)
    ensures uniqueVert == Courses(g) && Counts(g, Courses(g), [], degrees)
  {
    uniqueVert, degrees := {}, map[];
    var keys := g.Keys;
    while keys != {}
      invariant keys <= g.Keys
      invariant uniqueVert == Mentioned(g, g.Keys - keys)
      invariant Counts(g, g.Keys - keys, [], degrees)
      decreases |keys|
    {
      var from :| from in keys;
      uniqueVert, degrees := CountOne(g, g.Keys - keys, from, uniqueVert, degrees);
      assert g.Keys - keys + {from} == g.Keys - (keys - {from});
      keys := keys - {from};
    }
    assert g.Keys - keys == g.Keys;
    CountsEverything(g, degrees);
  }

  method CountOne(g: Graph, ghost done: set<Course>, from: Course, unique0: set<Course>, degrees0: map<Course, int>)
    returns (uniqueVert: set<Course>, degrees: map<Course, int>)
    requires from in g && from !in done
    requires unique0 == Mentioned(g, done) && Counts(g, done, [], degrees0)
    ensures uniqueVert == Mentioned(g, done + {from}) && Counts(g, done + {from}, [], degrees)
  {
    degrees := degrees0;
    uniqueVert := unique0 + {from};
    for i := 0 to |g[from]|
      invariant uniqueVert == unique0 + {from} + Elements(g[from][..i])
      invariant Counts(g, done, g[from][..i], degrees)
    {
      var to := g[from][i];
      assert g[from][..i + 1] == g[from][..i] + [to];
      CountsMore(g, done, g[from][..i], to, degrees);
      degrees := degrees[to := Get(degrees, to) + 1];
      uniqueVert := uniqueVert + {to};
    }
    assert g[from][..|g[from]|] == g[from] == Prereqs(g, from);
    MentionedNext(g, done, from);
    CountsClose(g, done, from, degrees);
  }

  /** The queue at the start: every course whose counter is zero, in any order. */
  method Ready(uniqueVert: set<Course>, degrees: map<Course, int>) returns (queue: seq<Course>)
    ensures Distinct(queue) && forall v :: v in queue <==> v in uniqueVert && Get(degrees, v) == 0
  {
    queue := [];
    var left := uniqueVert;
    while left != {}
      invariant left <= uniqueVert && Distinct(queue)
      invariant forall v :: v in queue <==> v in uniqueVert - left && Get(degrees, v) == 0
      decreases |left|
    {
      var from :| from in left;
      left := left - {from};
      if Get(degrees, from) == 0 {
        queue := queue + [from];
      }
    }
  }

  lemma DischargeOne(g: Graph, r: set<Course>, front: Course, i: nat, ans: seq<Course>, queue: seq<Course>,
                     degrees: map<Course, int>)
    requires i < |Prereqs(g, front)|
    requires Counts(g, r, Prereqs(g, front)[i..], degrees) && Queued(g, ans + queue, degrees)
    ensures var n := Prereqs(g, front)[i];
      Counts(g, r, Prereqs(g, front)[i + 1..], degrees[n := Get(degrees, n) - 1])
    ensures var n := Prereqs(g, front)[i];
      Queued(g, ans + (if Get(degrees, n) == 1 then queue + [n] else queue), degrees[n := Get(degrees, n) - 1])
  {
    var n := Prereqs(g, front)[i];
    assert Prereqs(g, front)[i..] == [n] + Prereqs(g, front)[i + 1..];
    CountsOne(g, r, Prereqs(g, front)[i + 1..], n, degrees);
    Known(g, front, i);
    QueuedOne(g, ans + queue, n, degrees);
    assert ans + queue + [n] == ans + (queue + [n]);
  }

  lemma Known(g: Graph, u: Course, i: nat)
    requires i < |Prereqs(g, u)|
    ensures Prereqs(g, u)[i] in Courses(g)
  {
    assert u in g && Prereqs(g, u)[i] in Prereqs(g, u);
  }

  /** Takes the listed course's entries off the counters and queues the courses that reach zero. */
  method Discharge(g: Graph, ghost r: set<Course>, front: Course, ghost ans: seq<Course>,
                   queue0: seq<Course>, degrees0: map<Course, int>)
    returns (queue: seq<Course>, degrees: map<Course, int>)
    requires Counts(g, r, Prereqs(g, front), degrees0) && Queued(g, ans + queue0, degrees0)
    ensures Counts(g, r, [], degrees) && Queued(g, ans + queue, degrees)
  {
    queue, degrees := queue0, degrees0;
    var neighbors := Prereqs(g, front);
    for i := 0 to |neighbors|
      invariant Counts(g, r, neighbors[i..], degrees) && Queued(g, ans + queue, degrees)
    {
      var n := neighbors[i];
      DischargeOne(g, r, front, i, ans, queue, degrees);
      degrees := degrees[n := Get(degrees, n) - 1];
      if degrees[n] == 0 {
        queue := queue + [n];
      }
    }
  }

  lemma FrontIsFresh(g: Graph, ans: seq<Course>, queue: seq<Course>, degrees: map<Course, int>)
    requires Queued(g, ans + queue, degrees) && queue != []
    ensures queue[0] in Courses(g) - Elements(ans) && Get(degrees, queue[0]) == 0 && |ans| < |Courses(g)|
  {
    var all := ans + queue;
    assert all[|ans|] == queue[0] && queue[0] in all;
    forall c | c in ans ensures c != queue[0] {
      var i :| 0 <= i < |ans| && ans[i] == c;
      assert all[i] == c;
    }
    DistinctIsSmall(all, Courses(g));
  }

  datatype CourseList = List(courses: seq<Course>) | Panic

  lemma ListedSoFar(g: Graph, ans: seq<Course>, front: Course, queue: seq<Course>)
    ensures ans + ([front] + queue) == (ans + [front]) + queue
    ensures Courses(g) - Elements(ans) - {front} == Courses(g) - Elements(ans + [front])
  {
  }

  lemma NothingListed(g: Graph, queue: seq<Course>)
    ensures [] + queue == queue && Courses(g) - Elements([]) == Courses(g)
  {
  }

  lemma LeftOver(some: set<Course>, all: set<Course>) returns (c: Course)
    requires some <= all && |some| != |all|
    ensures c in all && c !in some
  {
    var rest := all - some;
    assert all == some + rest;
    assert |rest| > 0;
    c :| c in rest;
  }

  method Finish(g: Graph, uniqueVert: set<Course>, ans: seq<Course>, ghost degrees: map<Course, int>)
    returns (result: CourseList)
    requires uniqueVert == Courses(g) && NeedersFirst(g, ans)
    requires Queued(g, ans, degrees) && Counts(g, Courses(g) - Elements(ans), [], degrees)
    ensures result.Panic? <==> HasCycle(g)
    ensures result.List? ==> ValidOrder(g, result.courses)
  {
    ElementsSize(ans);
    assert Elements(ans) <= uniqueVert;
    if |ans| != |uniqueVert| {
      ghost var c := LeftOver(Elements(ans), uniqueVert);
      StuckMeansCycle(g, ans, degrees, c);
      return Panic;
    }
    SameSize(Elements(ans), uniqueVert);
    ReversedIsValid(g, ans);
    OrderedMeansAcyclic(g, Reversed(ans));
    return List(Reversed(ans));
  }

  /**
   * The panic is reached exactly when the courses need each other in a circle; otherwise every
   * mentioned course is listed once, after all its prerequisites. Every run ends.
   */
  method GetCourseList(g: Graph) returns (result: CourseList)
    ensures result.Panic? <==> HasCycle(g)
    ensures result.List? ==> ValidOrder(g, result.courses)
  {
    var uniqueVert, degrees := CountDegrees(g);
    var queue := Ready(uniqueVert, degrees);
    var ans := [];
    NothingListed(g, queue);
    while queue != []
      invariant Queued(g, ans + queue, degrees) && NeedersFirst(g, ans)
      invariant Counts(g, Courses(g) - Elements(ans), [], degrees)
      decreases |Courses(g)| - |ans|
    {
      var front := queue[0];
      Seqs.Head(queue);
      ListedSoFar(g, ans, front, queue[1..]);
      FrontIsFresh(g, ans, queue, degrees);
      ListNext(g, ans, front, degrees);
      CountsNext(g, Courses(g) - Elements(ans), front, degrees);
      queue := queue[1..];
      ans := ans + [front];
      queue, degrees := Discharge(g, Courses(g) - Elements(ans), front, ans, queue, degrees);
    }
    Seqs.All(ans);
    result := Finish(g, uniqueVert, ans, degrees);
  }
}
