// The binary min-heap of packed keys in src/lib/bpeCount.ts: push and pop move a hole, not swaps.
module MinHeap {
  // Parent of slot i > 0: (i - 1) >> 1.
  function Up(i: nat): (u: nat)
    requires i > 0
    ensures u < i
  {
    (i - 1) / 2
  }

  // No key is below its parent's.
  ghost predicate Ordered(s: seq<int>) {
    forall j :: 0 < j < |s| ==> s[Up(j)] <= s[j]
  }

  // Ordered, but for the link between slot `i` and its parent; the parent still bounds i's children.
  ghost predicate OrderedAbove(s: seq<int>, i: nat) {
    && (forall j :: 0 < j < |s| && j != i ==> s[Up(j)] <= s[j])
    && (forall j :: 0 < j < |s| && i > 0 && i < |s| && Up(j) == i ==> s[Up(i)] <= s[j])
  }

  // Ordered, but for the links between slot `i` and its children; its parent still bounds them.
  ghost predicate OrderedBelow(s: seq<int>, i: nat) {
    && (forall j :: 0 < j < |s| && Up(j) != i ==> s[Up(j)] <= s[j])
    && (forall j :: 0 < j < |s| && i > 0 && i < |s| && Up(j) == i ==> s[Up(i)] <= s[j])
  }

  lemma {:induction false} RootIsLeast(s: seq<int>, j: nat)
    requires Ordered(s) && j < |s|
    ensures s[0] <= s[j]
  {
    if j > 0 {
      RootIsLeast(s, Up(j));
    }
  }

  lemma {:induction false} RootIsLowerBound(s: seq<int>)
    requires Ordered(s) && s != []
    ensures forall k :: k in multiset(s) ==> s[0] <= k
  {
    forall k | k in multiset(s) ensures s[0] <= k {
      var j :| 0 <= j < |s| && s[j] == k;
      RootIsLeast(s, j);
    }
  }

  lemma {:induction false} SwapSame(s: seq<int>, i: nat, j: nat)
    requires i < |s| && j < |s|
    ensures multiset(s[i := s[j]][j := s[i]]) == multiset(s)
  {
    var t := s[i := s[j]][j := s[i]];
    MultisetUpdate(s, i, s[j]);
    MultisetUpdate(s[i := s[j]], j, s[i]);
  }

  lemma {:induction false} MultisetUpdate(s: seq<int>, i: nat, x: int)
    requires i < |s|
    ensures multiset(s[i := x]) == multiset(s) - multiset{s[i]} + multiset{x}
  {
    assert s == s[..i] + [s[i]] + s[i + 1..];
    assert s[i := x] == s[..i] + [x] + s[i + 1..];
  }

  // Moving the hole one level: filling it with its neighbour's key is a swap in the finished heap.
  lemma {:induction false} HoleMoved(s: seq<int>, i: nat, j: nat, key: int)
    requires i < |s| && j < |s| && i != j
    ensures multiset(s[i := s[j]][j := key]) == multiset(s[i := key])
  {
    var full := s[i := key];
    SwapSame(full, i, j);
    assert full[i := full[j]][j := full[i]] == s[i := s[j]][j := key];
  }

  lemma {:induction false} SiftUpStep(s: seq<int>, i: nat, key: int)
    requires 0 < i < |s| && OrderedAbove(s[i := key], i) && s[Up(i)] > key
    ensures OrderedAbove(s[i := s[Up(i)]][Up(i) := key], Up(i))
  {
    var t, u := s[i := key], Up(i);
    var r := s[i := s[u]][u := key];
    forall j | 0 < j < |r| && j != u ensures r[Up(j)] <= r[j] {
      assert t[Up(j)] <= t[j] || j == i;
    }
    forall j | 0 < j < |r| && u > 0 && Up(j) == u ensures r[Up(u)] <= r[j] {
      assert t[Up(u)] <= t[u];
      assert j == i || t[Up(j)] <= t[j];
    }
  }

  lemma {:induction false} SiftUpDone(s: seq<int>, i: nat)
    requires i < |s| && OrderedAbove(s, i) && (i > 0 ==> s[Up(i)] <= s[i])
    ensures Ordered(s)
  {
  }

  lemma {:induction false} SiftDownStep(s: seq<int>, i: nat, c: nat, last: int)
    requires i < |s|
    requires OrderedBelow(s[i := last], i) && LeastChild(s, i, c) && s[c] < last
    ensures OrderedBelow(s[i := s[c]][c := last], c)
  {
    var t := s[i := last];
    var r := s[i := s[c]][c := last];
    forall j | 0 < j < |r| && Up(j) != c ensures r[Up(j)] <= r[j] {
      if Up(j) == i {
        assert r[i] == s[c];
      } else if j == i {
        assert t[Up(c)] == last;
        assert t[Up(i)] <= t[c];
      } else {
        assert t[Up(j)] <= t[j];
      }
    }
    forall j | 0 < j < |r| && Up(j) == c ensures r[Up(c)] <= r[j] {
      assert t[Up(j)] <= t[j];
    }
  }

  // `c` is a least child of slot `i`.
  ghost predicate LeastChild(s: seq<int>, i: nat, c: nat) {
    && i < c < |s| && Up(c) == i
    && (forall j :: 0 < j < |s| && Up(j) == i ==> s[c] <= s[j])
  }

  lemma {:induction false} PickChild(s: seq<int>, i: nat, c: nat)
    requires 2 * i + 1 < |s|
    requires c == if 2 * i + 2 < |s| && s[2 * i + 2] < s[2 * i + 1] then 2 * i + 2 else 2 * i + 1
    ensures LeastChild(s, i, c)
  {
    forall j | 0 < j < |s| && Up(j) == i ensures s[c] <= s[j] {
      assert j == 2 * i + 1 || j == 2 * i + 2;
    }
  }

  lemma {:induction false} SiftDownDone(s: seq<int>, i: nat, c: nat, last: int)
    requires i < |s| && OrderedBelow(s[i := last], i)
    requires 2 * i + 1 >= |s| || (LeastChild(s, i, c) && s[c] >= last)
    ensures Ordered(s[i := last])
  {
    var t := s[i := last];
    forall j | 0 < j < |t| ensures t[Up(j)] <= t[j] {
      if Up(j) == i { assert t[j] == s[j]; }
    }
  }

  class MinHeap {
    var heap: array<int>
    var size: nat
    ghost var pushed: nat  // keys pushed, ever

    ghost predicate Valid()
      reads this, heap
    {
      size <= heap.Length && Ordered(heap[..size])
    }

    // The keys held, with their multiplicity.
    ghost function Keys(): multiset<int>
      requires size <= heap.Length
      reads this, heap
    {
      multiset(heap[..size])
    }

    constructor (capacity: nat)
      ensures Valid() && size == 0 && pushed == 0 && heap.Length == capacity && fresh(heap)
      ensures Keys() == multiset{}
    {
      heap := new int[capacity];
      size, pushed := 0, 0;
    }

    method Push(key: int)
      requires Valid() && size < heap.Length
      modifies this`size, this`pushed, heap
      ensures Valid() && heap == old(heap) && size == old(size) + 1 && pushed == old(pushed) + 1
      ensures Keys() == old(Keys()) + multiset{key}
    {
      ghost var before := heap[..size];
      var i: nat := size;
      size, pushed := size + 1, pushed + 1;
      ghost var n := size;
      ghost var s := heap[..n];
      assert s[i := key] == before + [key];
      while i > 0
        invariant size == n && pushed == old(pushed) + 1 && i < n <= heap.Length
        invariant s == heap[..n]
        invariant OrderedAbove(s[i := key], i)
        invariant multiset(s[i := key]) == multiset(before) + multiset{key}
      {
        var up := Up(i);
        if heap[up] <= key { break; }
        SiftUpStep(s, i, key);
        HoleMoved(s, i, up, key);
        heap[i] := heap[up];
        s := s[i := s[up]];
        i := up;
      }
      heap[i] := key;
      s := s[i := key];
      assert s == heap[..n];
      SiftUpDone(s, i);
    }

    // Remove one least key.
    method Pop() returns (top: int)
      requires Valid() && size > 0
      modifies this`size, heap
      ensures Valid() && heap == old(heap) && size == old(size) - 1
      ensures forall k :: k in old(Keys()) ==> top <= k
      ensures top in old(Keys()) && Keys() == old(Keys()) - multiset{top}
    {
      ghost var before := heap[..size];
      RootIsLowerBound(before);
      top := heap[0];
      size := size - 1;
      var last := heap[size];
      ghost var s := heap[..size];
      assert before == s + [last];
      if size == 0 {
        heap[0] := last;  // the loop below would not run
      } else {
        TopRemoved(s, last);
        SinkLast(last, before, top);
      }
    }

    // The loop of pop: move the hole at the root down to where `last` belongs.
    method SinkLast(last: int, ghost before: seq<int>, ghost top: int)
      requires size < heap.Length
      requires Settling(heap[..size], 0, last, before, top)
      modifies heap
      ensures Valid() && Keys() == multiset(before) - multiset{top}
    {
      ghost var s := heap[..size];
      var i: nat, child: nat := 0, 1;
      while child < size
        invariant child == 2 * i + 1
        invariant s == heap[..size]
        invariant Settling(s, i, last, before, top)
      {
        if child + 1 < size && heap[child + 1] < heap[child] { child := child + 1; }
        PickChild(s, i, child);
        if heap[child] >= last { break; }
        Settle(s, i, child, last, before, top);
        heap[i] := heap[child];
        s := s[i := s[child]];
        i := child;
        child := 2 * i + 1;
      }
      heap[i] := last;
      assert heap[..size] == s[i := last];
      SiftDownDone(s, i, child, last);
    }
  }

  // The heap once the hole at `i` is filled with `last`: the keys left, in order but below i.
  ghost predicate Settling(s: seq<int>, i: nat, last: int, before: seq<int>, top: int) {
    && i < |s|
    && OrderedBelow(s[i := last], i)
    && multiset(s[i := last]) == multiset(before) - multiset{top}
  }

  lemma {:induction false} Settle(s: seq<int>, i: nat, c: nat, last: int, before: seq<int>, top: int)
    requires Settling(s, i, last, before, top) && LeastChild(s, i, c) && s[c] < last
    ensures Settling(s[i := s[c]], c, last, before, top)
  {
    SiftDownStep(s, i, c, last);
    HoleMoved(s, i, c, last);
  }

  lemma {:induction false} TopRemoved(s: seq<int>, last: int)
    requires |s| > 0 && Ordered(s + [last])
    ensures OrderedBelow(s[0 := last], 0)
    ensures multiset(s[0 := last]) == multiset(s + [last]) - multiset{s[0]}
  {
    var t := s + [last];
    forall j | 0 < j < |s| && Up(j) != 0 ensures s[0 := last][Up(j)] <= s[0 := last][j] {
      assert t[Up(j)] <= t[j];
    }
    MultisetUpdate(s, 0, last);
  }
}
