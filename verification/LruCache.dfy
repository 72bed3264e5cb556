/** lrucache/lru.go: the list of keys, the map into it, and what they hold after any history. */
module LruCache {
  import opened Common
  import opened LruHistory

  /** A node of container/list; its identity is what the cache keeps a pointer to. */
  class Element {
    const value: int

    constructor (value: int)
      ensures this.value == value
    {
      this.value := value;
    }
  }

  /** container/list, as the order of its nodes. */
  class List {
    var items: seq<Element>

    constructor ()
      ensures items == []
    {
      items := [];
    }

    function Len(): nat reads this { |items| }

    function Front(): Element?
      reads this
    {
      if items == [] then null else items[0]
    }

    /** Where a node is; the list's length if it is not there. */
    function Position(e: Element): (i: nat)
      reads this
      ensures i <= |items| && (i < |items| ==> items[i] == e) && e !in items[..i]
    {
      Find(items, e)
    }

    function Following(e: Element): Element?
      reads this
    {
      var i := Position(e);
      if i + 1 < |items| then items[i + 1] else null
    }

    method PushBack(value: int) returns (e: Element)
      modifies this
      ensures fresh(e) && e.value == value && items == old(items) + [e]
    {
      e := new Element(value);
      items := items + [e];
    }

    method Remove(e: Element)
      requires e in items
      modifies this
      ensures var i := old(Position(e)); i < |old(items)| && items == old(items)[..i] + old(items)[i + 1..]
    {
      var i := Position(e);
      items := items[..i] + items[i + 1..];
    }

    method MoveToBack(e: Element)
      requires e in items
      modifies this
      ensures var i := old(Position(e)); i < |old(items)| && items == old(items)[..i] + old(items)[i + 1..] + [e]
    {
      Remove(e);
      items := items + [e];
    }
  }

  function Find(s: seq<Element>, e: Element): (i: nat)
    ensures i <= |s| && (i < |s| ==> s[i] == e) && e !in s[..i]
    ensures i < |s| <==> e in s
  {
    if s == [] || s[0] == e then 0 else
      var i := 1 + Find(s[1..], e);
      assert s[..i] == [s[0]] + s[1..][..i - 1];
      i
  }

  datatype Pair = Pair(value: int, nodePtr: Element)

  /** The list and the map hold the same keys, each once, and the map points to the key's node. */
  ghost predicate Linked(items: seq<Element>, elements: map<int, Pair>) {
    Distinct(items) &&
    (forall i :: 0 <= i < |items| ==> items[i].value in elements && elements[items[i].value].nodePtr == items[i]) &&
    (forall k :: k in elements ==> elements[k].nodePtr in items && elements[k].nodePtr.value == k)
  }

  /** Keys and values in the order of Range. */
  ghost function Entries(items: seq<Element>, elements: map<int, Pair>): (c: seq<Access>)
    requires Linked(items, elements)
    ensures |c| == |items|
    ensures forall i :: 0 <= i < |c| ==> c[i] == Access(items[i].value, elements[items[i].value].value)
  {
    seq(|items|, i requires 0 <= i < |items| => Access(items[i].value, elements[items[i].value].value))
  }

  lemma KeysAreElements(items: seq<Element>, elements: map<int, Pair>, key: int)
    requires Linked(items, elements)
    ensures HasKey(Entries(items, elements), key) <==> key in elements
  {
  }

  lemma MovedIsLinked(items: seq<Element>, elements: map<int, Pair>, i: nat, value: int)
    requires Linked(items, elements) && i < |items|
    ensures var e := items[i];
      Linked(items[..i] + items[i + 1..] + [e], elements[e.value := Pair(value, e)])
  {
  }

  lemma MovedEntries(items: seq<Element>, elements: map<int, Pair>, i: nat, value: int)
    requires Linked(items, elements) && i < |items|
    requires Linked(items[..i] + items[i + 1..] + [items[i]], elements[items[i].value := Pair(value, items[i])])
    ensures var e, c := items[i], Entries(items, elements);
      Entries(items[..i] + items[i + 1..] + [e], elements[e.value := Pair(value, e)]) ==
      c[..i] + c[i + 1..] + [Access(e.value, value)]
  {
  }

  lemma DroppedIsLinked(items: seq<Element>, elements: map<int, Pair>)
    requires Linked(items, elements) && items != []
    ensures Linked(items[1..], elements - {items[0].value})
    ensures Entries(items[1..], elements - {items[0].value}) == Entries(items, elements)[1..]
  {
  }

  lemma AddedIsLinked(items: seq<Element>, elements: map<int, Pair>, e: Element, value: int)
    requires Linked(items, elements) && e.value !in elements && e !in items
    ensures Linked(items + [e], elements[e.value := Pair(value, e)])
    ensures Entries(items + [e], elements[e.value := Pair(value, e)]) ==
      Entries(items, elements) + [Access(e.value, value)]
  {
  }

  class LRUstorage {
    const cap: nat
    const queue: List
    var elements: map<int, Pair>
    ghost var history: seq<Access>

    ghost function Contents(): seq<Access>
      reads this, queue
      requires Linked(queue.items, elements)
    {
      Entries(queue.items, elements)
    }

    ghost predicate Valid()
      reads this, queue
    {
      Linked(queue.items, elements) && Contents() == Recent(history, cap)
    }

    /** New */
    constructor (cap: nat)
      ensures Valid() && this.cap == cap && history == [] && fresh(queue)
    {
      this.cap := cap;
      queue := new List();
      elements, history := map[], [];
    }

    /** Moves the node of a key to the back and gives the key a value. */
    method Touch(key: int, value: int)
      requires Valid() && key in elements
      modifies this`elements, this`history, queue
      ensures Valid() && history == old(history) + [Access(key, value)]
    {
      var e := elements[key].nodePtr;
      ghost var i := queue.Position(e);
      NodeHasPlace(queue.items, elements, key, i);
      MovedIsLinked(queue.items, elements, i, value);
      MovedEntries(queue.items, elements, i, value);
      RecentHit(history, cap, i, value);
      queue.MoveToBack(e);
      elements := elements[key := Pair(value, e)];
      history := history + [Access(key, value)];
    }

    /** A value for a key that is held, which becomes the latest; otherwise nothing changes. */
    method Get(key: int) returns (value: int, ok: bool)
      requires Valid()
      modifies this`elements, this`history, queue
      ensures Valid()
      ensures ok <==> HasKey(old(Contents()), key)
      ensures ok ==> Access(key, value) in old(Contents()) && history == old(history) + [Access(key, value)]
      ensures !ok ==> value == 0 && history == old(history) && Contents() == old(Contents())
    {
      KeysAreElements(queue.items, elements, key);
      if key !in elements {
        return 0, false;
      }
      var elem := elements[key];
      KeyIsEntry(queue.items, elements, key);
      Touch(key, elem.value);
      return elem.value, true;
    }

    method Set(key: int, value: int)
      requires Valid()
      modifies this`elements, this`history, queue
      ensures Valid() && history == old(history) + [Access(key, value)]
    {
      if cap == 0 {
        history := history + [Access(key, value)];
        return;
      }
      if key in elements {
        Touch(key, value);
        return;
      }
      KeysAreElements(queue.items, elements, key);
      RecentMiss(history, cap, Access(key, value));
      RecentIsSmall(history, cap);
      if cap <= queue.Len() {
        Evict();
      }
      var e := queue.PushBack(key);
      AddedIsLinked(queue.items[..|queue.items| - 1], elements, e, value);
      assert queue.items == queue.items[..|queue.items| - 1] + [e];
      elements := elements[key := Pair(value, e)];
      history := history + [Access(key, value)];
    }

    /** Removes the oldest key from the list and the map. */
    method Evict()
      requires Linked(queue.items, elements) && queue.items != []
      modifies this`elements, queue
      ensures Linked(queue.items, elements) && Contents() == old(Contents())[1..]
      ensures elements.Keys <= old(elements.Keys)
    {
      var frontEl := queue.Front();
      DroppedIsLinked(queue.items, elements);
      FindIsPlace(queue.items, 0);
      elements := elements - {frontEl.value};
      queue.Remove(frontEl);
      assert queue.items == old(queue.items)[1..];
    }

    method ForgetKeys()
      modifies this`elements
      ensures elements == map[]
    {
      var keys := elements.Keys;
      while keys != {}
        invariant keys == elements.Keys
        decreases |keys|
      {
        ghost var some := Member(keys);
        var k :| k in keys;
        elements := elements - {k};
        keys := keys - {k};
      }
    }

    /** Removes node after node, reading the next pointer before the node that holds it is gone. */
    method ForgetNodes()
      requires Distinct(queue.items)
      modifies queue
      ensures queue.items == []
    {
      if queue.Len() > 0 {
        var prev := queue.Front();
        if queue.Len() > 1 { FindIsPlace(queue.items, 0); }
        var next := queue.Following(prev);
        while prev != null
          invariant prev == queue.Front() && Distinct(queue.items)
          invariant next == if |queue.items| > 1 then queue.items[1] else null
          decreases |queue.items|
        {
          queue.Remove(prev);
          prev := next;
          if next != null {
            FindIsPlace(queue.items, 0);
            next := queue.Following(next);
          }
        }
      }
    }

    /** Everything is forgotten, and the history starts anew. */
    method Clear()
      requires Valid()
      modifies this`elements, this`history, queue
      ensures Valid() && history == [] && Contents() == []
    {
      ForgetKeys();
      ForgetNodes();
      history := [];
      assert |Contents()| == 0;
    }

    /** The callback sees the contents in order, up to and including the first it declines. */
    method Range(f: (int, int) -> bool) returns (seen: seq<Access>)
      requires Valid()
      ensures seen <= Contents()
      ensures forall i :: 0 <= i < |seen| - 1 ==> f(seen[i].key, seen[i].value)
      ensures seen == Contents() || (seen != [] && !f(seen[|seen| - 1].key, seen[|seen| - 1].value))
    {
      seen := [];
      var head := queue.Front();
      while head != null
        invariant |seen| <= |queue.items| && seen == Contents()[..|seen|]
        invariant head == if |seen| < |queue.items| then queue.items[|seen|] else null
        invariant forall i :: 0 <= i < |seen| ==> f(seen[i].key, seen[i].value)
        decreases |queue.items| - |seen|
      {
        FindIsPlace(queue.items, |seen|);
        var value := elements[head.value].value;
        seen := seen + [Access(head.value, value)];
        if !f(head.value, value) { return; }
        head := queue.Following(head);
      }
    }
  }

  lemma {:induction false} FindIsPlace(s: seq<Element>, i: nat)
    requires Distinct(s) && i < |s|
    ensures Find(s, s[i]) == i
  {
  }

  lemma NodeHasPlace(items: seq<Element>, elements: map<int, Pair>, key: int, i: nat)
    requires Linked(items, elements) && key in elements && i == Find(items, elements[key].nodePtr)
    ensures i < |items| && items[i] == elements[key].nodePtr
  {
  }

  lemma KeyIsEntry(items: seq<Element>, elements: map<int, Pair>, key: int)
    requires Linked(items, elements) && key in elements
    ensures Access(key, elements[key].value) in Entries(items, elements)
  {
  }
}
