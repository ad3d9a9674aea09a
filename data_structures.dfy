/** The data-structure module of the code under test: a stack and a queue
    that change a list in place, and list functions over it. Elements whose
    order matters are integers. */
module DataStructures {
  import opened Wrappers
  import opened Text

  /** The exceptions the module raises, with their messages. */
  datatype Error = IndexError(message: string) | ValueError(message: string)

  // ---------------------------------------------------------------------
  // Stack: the top is the last item of the list.
  // ---------------------------------------------------------------------

  /** What `pop` does to a list of items: the top item and the rest. */
  function StackPop<T>(items: seq<T>): (r: Result<(T, seq<T>), Error>)
    ensures r.Failure? <==> items == []
    ensures r.Failure? ==> r.error == IndexError("Cannot pop from empty stack")
    ensures r.Success? ==> r.value.1 + [r.value.0] == items
  {
    if items == [] then Failure(IndexError("Cannot pop from empty stack"))
    else Success((items[|items| - 1], items[..|items| - 1]))
  }

  /** What `peek` returns: the item `pop` would return. */
  function StackPeek<T>(items: seq<T>): (r: Result<T, Error>)
    ensures r.Failure? <==> items == []
    ensures r.Failure? ==> r.error == IndexError("Cannot peek at empty stack")
    ensures r.Success? ==> StackPop(items) == Success((r.value, items[..|items| - 1]))
  {
    if items == [] then Failure(IndexError("Cannot peek at empty stack")) else Success(items[|items| - 1])
  }

  /** Popping right after a push gives the pushed item and the previous items. */
  lemma PushThenPop<T>(items: seq<T>, x: T)
    ensures StackPop(items + [x]) == Success((x, items))
  {
    assert (items + [x])[..|items|] == items;
  }

  /** Last in, first out: after pushing `xs`, the top is the last of them. */
  lemma StackLastIn<T>(items: seq<T>, xs: seq<T>)
    requires xs != []
    ensures StackPop(items + xs) == Success((xs[|xs| - 1], items + xs[..|xs| - 1]))
  {
    assert (items + xs)[..|items + xs| - 1] == items + xs[..|xs| - 1];
  }

  class Stack<T> {
    var items: seq<T>

    /** An empty stack. */
    constructor ()
      ensures items == []
    {
      items := [];
    }

    method Push(item: T)
      modifies this
      ensures items == old(items) + [item]
    {
      items := items + [item];
    }

    /** Pops the top item; an empty stack raises IndexError and is unchanged. */
    method Pop() returns (r: Result<T, Error>)
      modifies this
      ensures match StackPop(old(items))
              case Failure(e) => r == Failure(e) && items == old(items)
              case Success(p) => r == Success(p.0) && items == p.1
    {
      if IsEmpty() {
        return Failure(IndexError("Cannot pop from empty stack"));
      }
      r := Success(items[|items| - 1]);
      items := items[..|items| - 1];
    }

    /** The top item, leaving the stack as it is. */
    method Peek() returns (r: Result<T, Error>)
      ensures r == StackPeek(items)
    {
      if IsEmpty() {
        return Failure(IndexError("Cannot peek at empty stack"));
      }
      return Success(items[|items| - 1]);
    }

    function IsEmpty(): (b: bool)
      reads this
      ensures b <==> Size() == 0
    {
      |items| == 0
    }

    /** The number of items held. */
    function Size(): nat
      reads this
    {
      |items|
    }
  }

  // ---------------------------------------------------------------------
  // Queue: the front is the first item of the list.
  // ---------------------------------------------------------------------

  /** What `dequeue` does to a list of items: the front item and the rest. */
  function QueueDequeue<T>(items: seq<T>): (r: Result<(T, seq<T>), Error>)
    ensures r.Failure? <==> items == []
    ensures r.Failure? ==> r.error == IndexError("Cannot dequeue from empty queue")
    ensures r.Success? ==> [r.value.0] + r.value.1 == items
  {
    if items == [] then Failure(IndexError("Cannot dequeue from empty queue"))
    else Success((items[0], items[1..]))
  }

  /** What `front` returns: the item `dequeue` would return. */
  function QueueFront<T>(items: seq<T>): (r: Result<T, Error>)
    ensures r.Failure? <==> items == []
    ensures r.Failure? ==> r.error == IndexError("Cannot access front of empty queue")
    ensures r.Success? ==> QueueDequeue(items) == Success((r.value, items[1..]))
  {
    if items == [] then Failure(IndexError("Cannot access front of empty queue")) else Success(items[0])
  }

  /** First in, first out: items enqueued later do not change which item
      leaves next, and they stay behind the remaining ones. */
  lemma QueueFirstOut<T>(items: seq<T>, xs: seq<T>)
    requires items != []
    ensures QueueDequeue(items + xs) == Success((items[0], items[1..] + xs))
  {
    assert (items + xs)[1..] == items[1..] + xs;
  }

  /** An item enqueued on an empty queue is the next to leave. */
  lemma EnqueueOnEmpty<T>(x: T, xs: seq<T>)
    ensures QueueDequeue([x] + xs) == Success((x, xs))
  {
    assert ([x] + xs)[1..] == xs;
  }

  class Queue<T> {
    var items: seq<T>

    /** An empty queue. */
    constructor ()
      ensures items == []
    {
      items := [];
    }

    /** Adds an item at the rear. */
    method Enqueue(item: T)
      modifies this
      ensures items == old(items) + [item]
    {
      items := items + [item];
    }

    /** Removes the front item; an empty queue raises IndexError and is unchanged. */
    method Dequeue() returns (r: Result<T, Error>)
      modifies this
      ensures match QueueDequeue(old(items))
              case Failure(e) => r == Failure(e) && items == old(items)
              case Success(p) => r == Success(p.0) && items == p.1
    {
      if IsEmpty() {
        return Failure(IndexError("Cannot dequeue from empty queue"));
      }
      r := Success(items[0]);
      items := items[1..];
    }

    /** The front item, leaving the queue as it is. */
    method Front() returns (r: Result<T, Error>)
      ensures r == QueueFront(items)
    {
      if IsEmpty() {
        return Failure(IndexError("Cannot access front of empty queue"));
      }
      return Success(items[0]);
    }

    function IsEmpty(): (b: bool)
      reads this
      ensures b <==> Size() == 0
    {
      |items| == 0
    }

    /** The number of items held. */
    function Size(): nat
      reads this
    {
      |items|
    }
  }

  // ---------------------------------------------------------------------
  // List functions
  // ---------------------------------------------------------------------

  /** `max(numbers)` of a non-empty list. */
  function Largest(numbers: seq<int>): (m: int)
    requires numbers != []
    ensures m in numbers && forall x :: x in numbers ==> x <= m
  {
    if |numbers| == 1 then numbers[0]
    else
      var m := Largest(numbers[1..]);
      assert numbers == [numbers[0]] + numbers[1..];
      if numbers[0] >= m then numbers[0] else m
  }

  /** `min(numbers)` of a non-empty list. */
  function Smallest(numbers: seq<int>): (m: int)
    requires numbers != []
    ensures m in numbers && forall x :: x in numbers ==> m <= x
  {
    if |numbers| == 1 then numbers[0]
    else
      var m := Smallest(numbers[1..]);
      assert numbers == [numbers[0]] + numbers[1..];
      if numbers[0] <= m then numbers[0] else m
  }

  /** `find_max`: an element bounding all others; an empty list raises ValueError. */
  function FindMax(numbers: seq<int>): (r: Result<int, Error>)
    ensures r.Failure? <==> numbers == []
    ensures r.Failure? ==> r.error == ValueError("Cannot find max of empty list")
    ensures r.Success? ==> r.value in numbers && forall x :: x in numbers ==> x <= r.value
  {
    if numbers == [] then Failure(ValueError("Cannot find max of empty list")) else Success(Largest(numbers))
  }

  /** `find_min`: an element bounded by all others; an empty list raises ValueError. */
  function FindMin(numbers: seq<int>): (r: Result<int, Error>)
    ensures r.Failure? <==> numbers == []
    ensures r.Failure? ==> r.error == ValueError("Cannot find min of empty list")
    ensures r.Success? ==> r.value in numbers && forall x :: x in numbers ==> r.value <= x
  {
    if numbers == [] then Failure(ValueError("Cannot find min of empty list")) else Success(Smallest(numbers))
  }

  /** The minimum never exceeds the maximum, and they agree exactly when
      all elements are equal. */
  lemma MinAtMostMax(numbers: seq<int>)
    requires numbers != []
    ensures FindMin(numbers).value <= FindMax(numbers).value
    ensures FindMin(numbers).value == FindMax(numbers).value <==> forall x :: x in numbers ==> x == numbers[0]
  {
    assert numbers[0] in numbers;
  }

  /** `reverse_list`: a reversed copy; reversing it again gives the list back. */
  function ReverseList<T>(items: seq<T>): (r: seq<T>)
    ensures |r| == |items| && Reversed(r) == items
  {
    ReversedInvolution(items);
    Reversed(items)
  }

  /** `items.count(target)`. */
  function CountOccurrences<T(==)>(items: seq<T>, target: T): (n: nat)
    ensures n == multiset(items)[target] && n <= |items|
  {
    Count(items, target)
  }

  // ----- remove_duplicates -----

  function Init<T>(s: seq<T>): seq<T>
    requires s != []
  {
    s[..|s| - 1]
  }

  function Last<T>(s: seq<T>): T
    requires s != []
  {
    s[|s| - 1]
  }

  /** The items kept by `remove_duplicates`: each item not seen before. */
  function Dedup<T(==)>(items: seq<T>): (r: seq<T>)
    ensures forall i :: 0 <= i < |r| ==> r[i] in items
    ensures forall i :: 0 <= i < |items| ==> items[i] in r
  {
    if items == [] then []
    else
      var d := Dedup(Init(items));
      assert items == Init(items) + [Last(items)];
      if Last(items) in Init(items) then d else d + [Last(items)]
  }

  /** `remove_duplicates(items)`: keeps each item the first time it is seen. */
  method RemoveDuplicates<T(==)>(items: seq<T>) returns (result: seq<T>)
    ensures result == Dedup(items)
  {
    var seen: set<T> := {};
    result := [];
    for k := 0 to |items|
      invariant result == Dedup(items[..k])
      invariant forall x :: x in seen <==> x in items[..k]
    {
      assert items[..k + 1] != [] && Init(items[..k + 1]) == items[..k] && Last(items[..k + 1]) == items[k];
      var item := items[k];
      if item !in seen {
        seen := seen + {item};
        result := result + [item];
      }
    }
    assert items[..|items|] == items;
  }

  predicate Distinct<T(==)>(s: seq<T>)
  {
    forall i, j :: 0 <= i < j < |s| ==> s[i] != s[j]
  }

  /** The result holds no item twice. */
  lemma {:induction false} DedupDistinct<T>(items: seq<T>)
    ensures Distinct(Dedup(items))
  {
    if items != [] {
      var d := Dedup(Init(items));
      DedupDistinct(Init(items));
      if Last(items) !in Init(items) {
        var r := d + [Last(items)];
        assert Dedup(items) == r;
        forall i, j | 0 <= i < j < |r|
          ensures r[i] != r[j]
        {
          assert r[i] == d[i] && d[i] in Init(items);
          if j < |d| {
            assert r[j] == d[j];
          } else {
            assert r[j] == Last(items);
          }
        }
      } else {
        assert Dedup(items) == d;
      }
    }
  }

  /** Index of the first occurrence of `x`. */
  function First<T(==)>(s: seq<T>, x: T): (k: nat)
    requires x in s
    ensures k < |s| && s[k] == x && forall j :: 0 <= j < k ==> s[j] != x
  {
    if s[0] == x then 0 else First(s[1..], x) + 1
  }

  lemma FirstInPrefix<T>(s: seq<T>, x: T)
    requires s != [] && x in Init(s)
    ensures First(s, x) == First(Init(s), x)
  {
    var k, k' := First(s, x), First(Init(s), x);
    assert s[k'] == x;
    assert Init(s)[k] == x;
  }

  /** The kept items appear in the order of their first occurrences. */
  lemma {:induction false} DedupFirstOccurrenceOrder<T>(items: seq<T>)
    ensures var r := Dedup(items);
            forall i, j :: 0 <= i < j < |r| ==> First(items, r[i]) < First(items, r[j])
  {
    if items != [] {
      var init := Init(items);
      DedupFirstOccurrenceOrder(init);
      var d := Dedup(init);
      forall i | 0 <= i < |d|
        ensures First(items, d[i]) == First(init, d[i]) < |init|
      {
        assert d[i] in d;
        FirstInPrefix(items, d[i]);
      }
      if Last(items) !in init {
        NewLastOrder(items, d);
      }
    }
  }

  /** The step of the order proof where the last item is new. */
  lemma NewLastOrder<T>(items: seq<T>, d: seq<T>)
    requires items != [] && Last(items) !in Init(items) && d == Dedup(Init(items))
    requires forall i, j :: 0 <= i < j < |d| ==> First(Init(items), d[i]) < First(Init(items), d[j])
    requires forall i :: 0 <= i < |d| ==> First(items, d[i]) == First(Init(items), d[i]) < |Init(items)|
    ensures var r := Dedup(items);
            forall i, j :: 0 <= i < j < |r| ==> First(items, r[i]) < First(items, r[j])
  {
    LastIsNew(items);
    var r := d + [Last(items)];
    assert Dedup(items) == r;
    forall i, j | 0 <= i < j < |r|
      ensures First(items, r[i]) < First(items, r[j])
    {
      assert r[i] == d[i];
      if j < |d| {
        assert r[j] == d[j];
      }
    }
  }

  /** An item that did not occur before first occurs at the end. */
  lemma LastIsNew<T>(items: seq<T>)
    requires items != [] && Last(items) !in Init(items)
    ensures First(items, Last(items)) == |items| - 1
  {
    forall j | 0 <= j < |items| - 1
      ensures items[j] != Last(items)
    {
      assert items[j] == Init(items)[j];
    }
  }

  // ----- merge_sorted_lists -----

  predicate Sorted(s: seq<int>)
  {
    forall i, j :: 0 <= i < j < |s| ==> s[i] <= s[j]
  }

  /** The list `merge_sorted_lists` builds: the smaller head first, the head
      of `list1` on ties, then what is left of either list. */
  function Merged(list1: seq<int>, list2: seq<int>): seq<int>
    decreases |list1| + |list2|
  {
    if list1 == [] then list2
    else if list2 == [] then list1
    else if list1[0] <= list2[0] then [list1[0]] + Merged(list1[1..], list2)
    else [list2[0]] + Merged(list1, list2[1..])
  }

  /** `merge_sorted_lists(list1, list2)`. */
  method MergeSortedLists(list1: seq<int>, list2: seq<int>) returns (result: seq<int>)
    ensures result == Merged(list1, list2)
  {
    result := [];
    var i, j := 0, 0;
    while i < |list1| && j < |list2|
      invariant 0 <= i <= |list1| && 0 <= j <= |list2|
      invariant result + Merged(list1[i..], list2[j..]) == Merged(list1, list2)
      decreases |list1| - i + |list2| - j
    {
      assert list1[i..][1..] == list1[i + 1..] && list2[j..][1..] == list2[j + 1..];
      MergeStep(result, list1[i..], list2[j..]);
      if list1[i] <= list2[j] {
        result := result + [list1[i]];
        i := i + 1;
      } else {
        result := result + [list2[j]];
        j := j + 1;
      }
    }
    MergeRest(result, list1[i..], list2[j..]);
    result := result + list1[i..];
    result := result + list2[j..];
  }

  /** One step of the merge loop: the smaller head moves to the result. */
  lemma MergeStep(result: seq<int>, a: seq<int>, b: seq<int>)
    requires a != [] && b != []
    ensures a[0] <= b[0] ==> (result + [a[0]]) + Merged(a[1..], b) == result + Merged(a, b)
    ensures a[0] > b[0] ==> (result + [b[0]]) + Merged(a, b[1..]) == result + Merged(a, b)
  {
  }

  /** Once one list is used up, the rest of the other follows. */
  lemma MergeRest(result: seq<int>, a: seq<int>, b: seq<int>)
    requires a == [] || b == []
    ensures result + a + b == result + Merged(a, b)
  {
  }

  /** The merge is a permutation of `list1 + list2`, whatever the input. */
  lemma {:induction false} MergedPermutation(list1: seq<int>, list2: seq<int>)
    ensures multiset(Merged(list1, list2)) == multiset(list1 + list2)
    decreases |list1| + |list2|
  {
    if list1 != [] && list2 != [] {
      if list1[0] <= list2[0] {
        MergedPermutation(list1[1..], list2);
        HeadTailMultiset(list1);
        calc {
          multiset(Merged(list1, list2));
          multiset([list1[0]] + Merged(list1[1..], list2));
          multiset{list1[0]} + multiset(list1[1..] + list2);
        }
      } else {
        MergedPermutation(list1, list2[1..]);
        HeadTailMultiset(list2);
        calc {
          multiset(Merged(list1, list2));
          multiset([list2[0]] + Merged(list1, list2[1..]));
          multiset{list2[0]} + multiset(list1 + list2[1..]);
        }
      }
    }
  }

  lemma HeadTailMultiset(s: seq<int>)
    requires s != []
    ensures multiset(s) == multiset{s[0]} + multiset(s[1..])
  {
    assert s == [s[0]] + s[1..];
  }

  /** Every element of the merge is one of the inputs' elements. */
  lemma MergedElements(list1: seq<int>, list2: seq<int>, k: nat)
    requires k < |Merged(list1, list2)|
    ensures Merged(list1, list2)[k] in list1 || Merged(list1, list2)[k] in list2
  {
    MergedPermutation(list1, list2);
    assert Merged(list1, list2)[k] in multiset(list1 + list2);
  }

  /** A sorted list with a sorted merge behind its head: still sorted. */
  lemma ConsSorted(x: int, rest: seq<int>)
    requires Sorted(rest) && forall k :: 0 <= k < |rest| ==> x <= rest[k]
    ensures Sorted([x] + rest)
  {
    assert forall k :: 0 < k < |[x] + rest| ==> ([x] + rest)[k] == rest[k - 1];
  }

  /** Merging two sorted lists gives a sorted list. */
  lemma {:induction false} MergedSorted(list1: seq<int>, list2: seq<int>)
    requires Sorted(list1) && Sorted(list2)
    ensures Sorted(Merged(list1, list2))
    decreases |list1| + |list2|
  {
    if list1 != [] && list2 != [] {
      if list1[0] <= list2[0] {
        var rest := Merged(list1[1..], list2);
        MergedSorted(list1[1..], list2);
        forall k | 0 <= k < |rest|
          ensures list1[0] <= rest[k]
        {
          MergedElements(list1[1..], list2, k);
        }
        ConsSorted(list1[0], rest);
      } else {
        var rest := Merged(list1, list2[1..]);
        MergedSorted(list1, list2[1..]);
        forall k | 0 <= k < |rest|
          ensures list2[0] <= rest[k]
        {
          MergedElements(list1, list2[1..], k);
        }
        ConsSorted(list2[0], rest);
      }
    }
  }

  // ----- flatten_nested_list -----

  /** A list element: a list (spliced by the flattening) or anything else. */
  datatype Item<T> = Element(value: T) | Sublist(items: seq<Item<T>>)

  /** What one element contributes: a list's own elements, or itself. */
  function Spliced<T>(item: Item<T>): seq<Item<T>>
  {
    match item
    case Sublist(items) => items
    case Element(_) => [item]
  }

  /** The list `flatten_nested_list` builds. */
  function Flattened<T>(nested: seq<Item<T>>): seq<Item<T>>
  {
    if nested == [] then [] else Flattened(Init(nested)) + Spliced(Last(nested))
  }

  /** `flatten_nested_list(nested)`. */
  method FlattenNestedList<T>(nested: seq<Item<T>>) returns (result: seq<Item<T>>)
    ensures result == Flattened(nested)
  {
    result := [];
    for k := 0 to |nested|
      invariant result == Flattened(nested[..k])
    {
      assert Init(nested[..k + 1]) == nested[..k] && Last(nested[..k + 1]) == nested[k];
      match nested[k]
      case Sublist(items) =>
        result := result + items;
      case Element(_) =>
        result := result + [nested[k]];
    }
    assert nested[..|nested|] == nested;
  }

  /** Flattening distributes over concatenation. */
  lemma {:induction false} FlattenedAppend<T>(a: seq<Item<T>>, b: seq<Item<T>>)
    ensures Flattened(a + b) == Flattened(a) + Flattened(b)
    decreases |b|
  {
    if b == [] {
      assert a + b == a;
    } else {
      var b' := Init(b);
      assert b == b' + [Last(b)];
      assert a + b == (a + b') + [Last(b)];
      FlattenedAppend(a, b');
      InitLastSnoc(a + b', Last(b));
      InitLastSnoc(b', Last(b));
    }
  }

  lemma InitLastSnoc<T>(s: seq<T>, x: T)
    ensures Init(s + [x]) == s && Last(s + [x]) == x
  {
    assert (s + [x])[..|s|] == s;
  }

  /** Exactly one level is spliced: a list's elements come out as they are,
      lists among them included. */
  lemma FlattenOneLevel<T>(items: seq<Item<T>>)
    ensures Flattened([Sublist(items)]) == items
  {
    assert Init([Sublist(items)]) == [];
  }

  /** A list without sublists is unchanged. */
  lemma {:induction false} FlattenedNoSublists<T>(nested: seq<Item<T>>)
    requires forall k :: 0 <= k < |nested| ==> nested[k].Element?
    ensures Flattened(nested) == nested
  {
    if nested != [] {
      var init, x := Init(nested), Last(nested);
      assert nested == init + [x];
      FlattenedNoSublists(init);
      FlattenedElement(init, x);
    }
  }

  /** An element appended is passed through as it is. */
  lemma FlattenedElement<T>(init: seq<Item<T>>, x: Item<T>)
    requires x.Element?
    ensures Flattened(init + [x]) == Flattened(init) + [x]
  {
    assert Init(init + [x]) == init;
  }
}
