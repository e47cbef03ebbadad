/** The heap of lib/min-heap_queue.hpp: push_heap and pop_heap as the loops that give them their meaning. */
module PriorityHeap {
  import opened PrioritySpec

  function Parent(i: nat): (p: nat)
    requires i > 0
    ensures p < i
  {
    (i - 1) / 2
  }

  /** No node is less than one of its children. */
  ghost predicate IsHeap<V>(comp: (V, V) -> bool, h: seq<Node<V>>) {
    forall i | 0 < i < |h| :: !Less(comp, h[Parent(i)], h[i])
  }

  /** The front of a heap is served before every other node. */
  lemma {:induction false} FrontIsGreatest<V(!new)>(comp: (V, V) -> bool, h: seq<Node<V>>, i: nat)
    requires StrictWeakOrder(comp) && IsHeap(comp, h) && i < |h|
    ensures !Less(comp, h[0], h[i])
    decreases i
  {
    if i > 0 {
      FrontIsGreatest(comp, h, Parent(i));
      AboveIsTransitive(comp, h[0], h[Parent(i)], h[i]);
    } else {
      ComparatorIsTotalOrder(comp, h[0], h[0], h[0]);
    }
  }

  function Swapped<T>(h: seq<T>, i: nat, j: nat): (h': seq<T>)
    requires i < |h| && j < |h|
    ensures |h'| == |h| && multiset(h') == multiset(h)
  {
    h[i := h[j]][j := h[i]]
  }

  /** A heap except that node i may be greater than its parent; the parent is still above i's children. */
  ghost predicate HeapBut<V>(comp: (V, V) -> bool, h: seq<Node<V>>, i: nat)
    requires i < |h|
  {
    && (forall k | 0 < k < |h| && k != i :: !Less(comp, h[Parent(k)], h[k]))
    && (i > 0 ==> forall k | 0 < k < |h| && Parent(k) == i :: !Less(comp, h[Parent(i)], h[k]))
  }

  lemma Raise<V(!new)>(comp: (V, V) -> bool, h: seq<Node<V>>, i: nat)
    requires StrictWeakOrder(comp) && 0 < i < |h| && HeapBut(comp, h, i) && Less(comp, h[Parent(i)], h[i])
    ensures HeapBut(comp, Swapped(h, i, Parent(i)), Parent(i))
  {
    var p, h' := Parent(i), Swapped(h, i, Parent(i));
    ComparatorIsTotalOrder(comp, h[p], h[i], h[p]);
    forall k | 0 < k < |h| && k != p ensures !Less(comp, h'[Parent(k)], h'[k]) {
      if k != i && Parent(k) == p { AboveIsTransitive(comp, h[i], h[p], h[k]); }
    }
    if p > 0 {
      var g := Parent(p);
      assert !Less(comp, h[g], h[p]);
      forall k | 0 < k < |h| && Parent(k) == p ensures !Less(comp, h'[g], h'[k]) {
        if k != i { AboveIsTransitive(comp, h[g], h[p], h[k]); }
      }
    }
  }

  /** push_heap: the last node rises while it is greater than its parent. */
  method SiftUp<V(!new)>(comp: (V, V) -> bool, h: seq<Node<V>>) returns (r: seq<Node<V>>)
    requires StrictWeakOrder(comp) && h != [] && IsHeap(comp, h[..|h| - 1])
    ensures IsHeap(comp, r) && multiset(r) == multiset(h)
  {
    hide StrictWeakOrder, Less;
    r := h;
    var i: nat := |h| - 1;
    LastMayBeGreater(comp, h);
    while i > 0 && Less(comp, r[Parent(i)], r[i])
      invariant i < |r| == |h| && multiset(r) == multiset(h) && HeapBut(comp, r, i)
    {
      Raise(comp, r, i);
      r := Swapped(r, i, Parent(i));
      i := Parent(i);
    }
  }

  lemma LastMayBeGreater<V>(comp: (V, V) -> bool, h: seq<Node<V>>)
    requires h != [] && IsHeap(comp, h[..|h| - 1])
    ensures HeapBut(comp, h, |h| - 1)
  {
    var front := h[..|h| - 1];
    forall k | 0 < k < |h| - 1 ensures !Less(comp, h[Parent(k)], h[k]) {
      assert !Less(comp, front[Parent(k)], front[k]);
    }
  }

  /** A heap except that node i may be less than its children; its parent is still above them. */
  ghost predicate HeapBelow<V>(comp: (V, V) -> bool, h: seq<Node<V>>, i: nat) {
    && (forall k | 0 < k < |h| && Parent(k) != i :: !Less(comp, h[Parent(k)], h[k]))
    && (i > 0 ==> forall k | 0 < k < |h| && Parent(k) == i && i < |h| :: !Less(comp, h[Parent(i)], h[k]))
  }

  /** The greater child of i. */
  function GreaterChild<V>(comp: (V, V) -> bool, h: seq<Node<V>>, i: nat): (m: nat)
    requires 2 * i + 1 < |h|
    ensures i < m < |h| && Parent(m) == i
  {
    if 2 * i + 2 < |h| && Less(comp, h[2 * i + 1], h[2 * i + 2]) then 2 * i + 2 else 2 * i + 1
  }

  lemma GreaterChildIsAbove<V(!new)>(comp: (V, V) -> bool, h: seq<Node<V>>, i: nat, k: nat)
    requires StrictWeakOrder(comp) && 2 * i + 1 < |h| && 0 < k < |h| && Parent(k) == i
    ensures !Less(comp, h[GreaterChild(comp, h, i)], h[k])
  {
    assert k == 2 * i + 1 || k == 2 * i + 2;
    ComparatorIsTotalOrder(comp, h[GreaterChild(comp, h, i)], h[k], h[k]);
  }

  lemma Sink<V(!new)>(comp: (V, V) -> bool, h: seq<Node<V>>, i: nat)
    requires StrictWeakOrder(comp) && 2 * i + 1 < |h| && HeapBelow(comp, h, i)
    requires Less(comp, h[i], h[GreaterChild(comp, h, i)])
    ensures HeapBelow(comp, Swapped(h, i, GreaterChild(comp, h, i)), GreaterChild(comp, h, i))
  {
    hide StrictWeakOrder, Less;
    var m := GreaterChild(comp, h, i);
    var h' := Swapped(h, i, m);
    ComparatorIsTotalOrder(comp, h[i], h[m], h[i]);
    forall k | 0 < k < |h| && Parent(k) != m ensures !Less(comp, h'[Parent(k)], h'[k]) {
      if Parent(k) == i && k != m { GreaterChildIsAbove(comp, h, i, k); }
    }
    forall k | 0 < k < |h| && Parent(k) == m ensures !Less(comp, h'[Parent(m)], h'[k]) {
      assert !Less(comp, h[Parent(k)], h[k]);
    }
  }

  lemma SunkIsHeap<V(!new)>(comp: (V, V) -> bool, h: seq<Node<V>>, i: nat)
    requires StrictWeakOrder(comp) && HeapBelow(comp, h, i)
    requires 2 * i + 1 < |h| ==> !Less(comp, h[i], h[GreaterChild(comp, h, i)])
    ensures IsHeap(comp, h)
  {
    hide StrictWeakOrder, Less, GreaterChild;
    forall k | 0 < k < |h| && Parent(k) == i ensures !Less(comp, h[Parent(k)], h[k]) {
      GreaterChildIsAbove(comp, h, i, k);
      AboveIsTransitive(comp, h[i], h[GreaterChild(comp, h, i)], h[k]);
    }
  }

  /** The root sinks while it is less than its greater child. */
  method SiftDown<V(!new)>(comp: (V, V) -> bool, h: seq<Node<V>>) returns (r: seq<Node<V>>)
    requires StrictWeakOrder(comp) && HeapBelow(comp, h, 0)
    ensures IsHeap(comp, r) && multiset(r) == multiset(h) && |r| == |h|
  {
    hide StrictWeakOrder, Less, GreaterChild;
    r := h;
    var i := 0;
    while 2 * i + 1 < |r| && Less(comp, r[i], r[GreaterChild(comp, r, i)])
      invariant |r| == |h| && multiset(r) == multiset(h) && HeapBelow(comp, r, i)
      decreases |r| - i
    {
      Sink(comp, r, i);
      var m := GreaterChild(comp, r, i);
      r := Swapped(r, i, m);
      i := m;
    }
    SunkIsHeap(comp, r, i);
  }

  /** pop_heap: the greatest node goes to the back, and what is before it is a heap again. */
  method PopHeap<V(!new)>(comp: (V, V) -> bool, h: seq<Node<V>>) returns (r: seq<Node<V>>)
    requires StrictWeakOrder(comp) && h != [] && IsHeap(comp, h)
    ensures |r| == |h| && multiset(r) == multiset(h)
    ensures r[|h| - 1] == h[0] && IsHeap(comp, r[..|h| - 1])
  {
    var n := |h| - 1;
    r := Swapped(h, 0, n);
    HeapWithoutFront(comp, h);
    var sunk := SiftDown(comp, r[..n]);
    assert r == r[..n] + [r[n]];
    r := sunk + [r[n]];
    assert r[..n] == sunk;
  }

  lemma HeapWithoutFront<V>(comp: (V, V) -> bool, h: seq<Node<V>>)
    requires h != [] && IsHeap(comp, h)
    ensures HeapBelow(comp, Swapped(h, 0, |h| - 1)[..|h| - 1], 0)
  {
    var r := Swapped(h, 0, |h| - 1)[..|h| - 1];
    forall k | 0 < k < |r| && Parent(k) != 0 ensures !Less(comp, r[Parent(k)], r[k]) {
      assert !Less(comp, h[Parent(k)], h[k]);
    }
  }
}
