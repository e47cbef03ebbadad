/** The order of lib/min-heap_queue.hpp, and the stable priority queue it is there to give: among the waiting
    messages the first of the least ones is served. */
module PrioritySpec {

  /** What the user's Compare has to be. */
  ghost predicate StrictWeakOrder<V(!new)>(comp: (V, V) -> bool) {
    && (forall a :: !comp(a, a))
    && (forall a, b, c :: comp(a, b) && comp(b, c) ==> comp(a, c))
    && (forall a, b, c :: !comp(a, b) && !comp(b, c) ==> !comp(a, c))
  }

  datatype Node<V> = Node(id: nat, data: V)

  /** MinHeapComparator: the order in which a heap algorithm keeps its greatest element at the front. */
  predicate Less<V>(comp: (V, V) -> bool, a: Node<V>, b: Node<V>) {
    if comp(b.data, a.data) then true
    else if comp(a.data, b.data) then false
    else a.id > b.id
  }

  /** a is served before b. */
  predicate Before<V>(comp: (V, V) -> bool, a: Node<V>, b: Node<V>) { Less(comp, b, a) }

  /** On nodes with distinct ids the comparator is a strict total order: lower priority value first, and
      earlier arrival first among equals. */
  lemma ComparatorIsTotalOrder<V(!new)>(comp: (V, V) -> bool, a: Node<V>, b: Node<V>, c: Node<V>)
    requires StrictWeakOrder(comp)
    ensures !Less(comp, a, a)
    ensures Less(comp, a, b) ==> !Less(comp, b, a)
    ensures a.id != b.id ==> Less(comp, a, b) || Less(comp, b, a)
    ensures Less(comp, a, b) && Less(comp, b, c) ==> Less(comp, a, c)
    ensures Before(comp, a, b) <==> comp(a.data, b.data) || (!comp(b.data, a.data) && a.id < b.id)
  {
  }

  /** Not being less is transitive too, also between equal ids. */
  lemma AboveIsTransitive<V(!new)>(comp: (V, V) -> bool, a: Node<V>, b: Node<V>, c: Node<V>)
    requires StrictWeakOrder(comp) && !Less(comp, a, b) && !Less(comp, b, c)
    ensures !Less(comp, a, c)
  {
  }

  /** The position of the first least message. */
  function Best<V>(comp: (V, V) -> bool, q: seq<V>): (k: nat)
    requires q != []
    ensures k < |q|
  {
    if |q| == 1 then 0
    else
      var k := Best(comp, q[..|q| - 1]);
      if comp(q[|q| - 1], q[k]) then |q| - 1 else k
  }

  /** Nothing is less than the best, and everything before it is greater. */
  lemma {:induction false} BestIsFirstLeast<V(!new)>(comp: (V, V) -> bool, q: seq<V>)
    requires StrictWeakOrder(comp) && q != []
    ensures forall j | 0 <= j < |q| :: !comp(q[j], q[Best(comp, q)])
    ensures forall j | 0 <= j < Best(comp, q) :: comp(q[Best(comp, q)], q[j])
  {
    if |q| > 1 {
      var front, v := q[..|q| - 1], q[|q| - 1];
      BestIsFirstLeast(comp, front);
      var k := Best(comp, front);
      forall j | 0 <= j < |q| - 1
        ensures q[j] == front[j] && !comp(front[j], front[k]) && (j < k ==> comp(front[k], front[j]))
      {
      }
    }
  }

  function Without<T>(q: seq<T>, k: nat): seq<T>
    requires k < |q|
  {
    q[..k] + q[k + 1..]
  }

  /** What reading until the queue is empty returns. */
  function Drained<V>(comp: (V, V) -> bool, q: seq<V>): seq<V>
    decreases |q|
  {
    if q == [] then [] else [q[Best(comp, q)]] + Drained(comp, Without(q, Best(comp, q)))
  }

  /** Insertion sort, for reference: each value goes behind all that are not greater. */
  function Inserted<T>(less: (T, T) -> bool, s: seq<T>, v: T): seq<T> {
    if s == [] then [v]
    else if less(v, s[0]) then [v] + s
    else [s[0]] + Inserted(less, s[1..], v)
  }

  function StableSort<T>(less: (T, T) -> bool, q: seq<T>): (s: seq<T>)
    ensures |s| == |q|
  {
    if q == [] then [] else
      var s := StableSort(less, q[..|q| - 1]);
      InsertedSize(less, s, q[|q| - 1]);
      Inserted(less, s, q[|q| - 1])
  }

  lemma {:induction false} InsertedSize<T>(less: (T, T) -> bool, s: seq<T>, v: T)
    ensures |Inserted(less, s, v)| == |s| + 1
  {
    if s != [] { InsertedSize(less, s[1..], v); }
  }

  /** The sort starts with the best and goes on with the sort of the others. */
  lemma {:induction false} SortTakesBest<V>(comp: (V, V) -> bool, q: seq<V>)
    requires q != []
    ensures StableSort(comp, q) == [q[Best(comp, q)]] + StableSort(comp, Without(q, Best(comp, q)))
    decreases |q|
  {
    var front, v := q[..|q| - 1], q[|q| - 1];
    if |q| == 1 {
      assert front == [] && Without(q, 0) == [];
    } else {
      SortTakesBest(comp, front);
      var k := Best(comp, front);
      if comp(v, q[k]) {
        assert Without(q, |q| - 1) == front;
      } else {
        var rest := Without(q, k);
        assert rest[..|rest| - 1] == Without(front, k) && rest[|rest| - 1] == v;
        assert StableSort(comp, front)[1..] == StableSort(comp, Without(front, k));
      }
    }
  }

  /** Draining is stable sorting. */
  lemma {:induction false} DrainIsStableSort<V>(comp: (V, V) -> bool, q: seq<V>)
    ensures Drained(comp, q) == StableSort(comp, q)
    decreases |q|
  {
    if q != [] {
      SortTakesBest(comp, q);
      DrainIsStableSort(comp, Without(q, Best(comp, q)));
    }
  }

  /** The nodes in the order of their arrival. */
  predicate Arrival<V>(nodes: seq<Node<V>>) {
    forall i, j | 0 <= i < j < |nodes| :: nodes[i].id < nodes[j].id
  }

  function Values<V>(nodes: seq<Node<V>>): (q: seq<V>)
    ensures |q| == |nodes|
    ensures forall i | 0 <= i < |nodes| :: q[i] == nodes[i].data
  {
    seq(|nodes|, i requires 0 <= i < |nodes| => nodes[i].data)
  }

  function ByData<V>(comp: (V, V) -> bool): (Node<V>, Node<V>) -> bool {
    (a: Node<V>, b: Node<V>) => comp(a.data, b.data)
  }

  ghost predicate Served<V>(comp: (V, V) -> bool, s: seq<Node<V>>) {
    forall i, j | 0 <= i < j < |s| :: Before(comp, s[i], s[j])
  }

  lemma {:induction false} InsertedMembers<T>(less: (T, T) -> bool, s: seq<T>, v: T)
    ensures multiset(Inserted(less, s, v)) == multiset(s) + multiset{v}
  {
    if s != [] && !less(v, s[0]) {
      InsertedMembers(less, s[1..], v);
      assert s == [s[0]] + s[1..];
    }
  }

  /** A node put in front of others that it is served before. */
  lemma ServedFirst<V>(comp: (V, V) -> bool, a: Node<V>, s: seq<Node<V>>)
    requires Served(comp, s) && forall n | n in s :: Before(comp, a, n)
    ensures Served(comp, [a] + s)
  {
    var t := [a] + s;
    forall i, j | 0 <= i < j < |t| ensures Before(comp, t[i], t[j]) {
      if i > 0 { assert Before(comp, s[i - 1], s[j - 1]); } else { assert t[j] in s; }
    }
  }

  lemma {:induction false} InsertedServed<V(!new)>(comp: (V, V) -> bool, s: seq<Node<V>>, v: Node<V>)
    requires StrictWeakOrder(comp) && Served(comp, s) && forall i | 0 <= i < |s| :: s[i].id < v.id
    ensures Served(comp, Inserted(ByData(comp), s, v))
  {
    if s != [] {
      hide StrictWeakOrder;
      if comp(v.data, s[0].data) {
        forall n | n in s ensures Before(comp, v, n) {
          ComparatorIsTotalOrder(comp, n, s[0], v);
        }
        ServedFirst(comp, v, s);
      } else {
        InsertedServed(comp, s[1..], v);
        InsertedMembers(ByData(comp), s[1..], v);
        var t := Inserted(ByData(comp), s[1..], v);
        forall n | n in t ensures Before(comp, s[0], n) {
          assert n in multiset(t);
          assert n == v || n in s[1..];
        }
        ServedFirst(comp, s[0], t);
      }
    }
  }

  /** The sort is a permutation of the nodes, in strictly increasing order of priority and then of arrival; no
      other sequence is. */
  lemma {:induction false} SortIsStable<V(!new)>(comp: (V, V) -> bool, nodes: seq<Node<V>>)
    requires StrictWeakOrder(comp) && Arrival(nodes)
    ensures Served(comp, StableSort(ByData(comp), nodes))
    ensures multiset(StableSort(ByData(comp), nodes)) == multiset(nodes)
  {
    if nodes != [] {
      var front, v := nodes[..|nodes| - 1], nodes[|nodes| - 1];
      assert nodes == front + [v];
      SortIsStable(comp, front);
      var s := StableSort(ByData(comp), front);
      hide *;
      ComeEarlier(nodes, s);
      InsertedServed(comp, s, v);
      InsertedMembers(ByData(comp), s, v);
    }
  }

  lemma ComeEarlier<V>(nodes: seq<Node<V>>, s: seq<Node<V>>)
    requires nodes != [] && Arrival(nodes) && multiset(s) == multiset(nodes[..|nodes| - 1])
    ensures forall i | 0 <= i < |s| :: s[i].id < nodes[|nodes| - 1].id
  {
    forall i | 0 <= i < |s| ensures s[i].id < nodes[|nodes| - 1].id {
      assert s[i] in multiset(s);
      assert s[i] in nodes[..|nodes| - 1];
    }
  }

  lemma {:induction false} ServedIsUnique<V(!new)>(comp: (V, V) -> bool, a: seq<Node<V>>, b: seq<Node<V>>)
    requires StrictWeakOrder(comp) && Served(comp, a) && Served(comp, b) && multiset(a) == multiset(b)
    ensures a == b
  {
    if a == [] {
      assert |multiset(b)| == 0;
    } else {
      assert a[0] in multiset(b) && |multiset(a)| == |multiset(b)|;
      assert b[0] in multiset(a);
      ComparatorIsTotalOrder(comp, a[0], b[0], a[0]);
      assert a == [a[0]] + a[1..] && b == [b[0]] + b[1..];
      assert multiset(a[1..]) == multiset(a) - multiset{a[0]};
      ServedIsUnique(comp, a[1..], b[1..]);
    }
  }

  /** The values are sorted as their nodes are. */
  lemma {:induction false} SortOfValues<V>(comp: (V, V) -> bool, nodes: seq<Node<V>>)
    ensures Values(StableSort(ByData(comp), nodes)) == StableSort(comp, Values(nodes))
  {
    if nodes != [] {
      var front, v := nodes[..|nodes| - 1], nodes[|nodes| - 1];
      SortOfValues(comp, front);
      assert Values(nodes)[..|nodes| - 1] == Values(front);
      InsertOfValues(comp, StableSort(ByData(comp), front), v);
    }
  }

  lemma {:induction false} InsertOfValues<V>(comp: (V, V) -> bool, s: seq<Node<V>>, v: Node<V>)
    ensures Values(Inserted(ByData(comp), s, v)) == Inserted(comp, Values(s), v.data)
  {
    if s != [] && !comp(v.data, s[0].data) {
      InsertOfValues(comp, s[1..], v);
      assert Values(s)[1..] == Values(s[1..]);
    }
  }

  /** got lists the values of all the nodes in the one order of service: by priority, then by arrival. */
  ghost predicate InServedOrder<V(!new)>(comp: (V, V) -> bool, nodes: seq<Node<V>>, got: seq<V>) {
    exists served :: got == Values(served) && Served(comp, served) && multiset(served) == multiset(nodes)
  }

  /** For nodes listed as they arrived, the stable sort of the values is what that order gives, and nothing else. */
  lemma SortIsServedOrder<V(!new)>(comp: (V, V) -> bool, nodes: seq<Node<V>>, got: seq<V>)
    requires StrictWeakOrder(comp) && Arrival(nodes)
    ensures got == StableSort(comp, Values(nodes)) <==> InServedOrder(comp, nodes, got)
  {
    var sorted := StableSort(ByData(comp), nodes);
    SortIsStable(comp, nodes);
    SortOfValues(comp, nodes);
    hide StableSort, ByData, StrictWeakOrder, Arrival, Served, Values;
    if InServedOrder(comp, nodes, got) {
      var served :| got == Values(served) && Served(comp, served) && multiset(served) == multiset(nodes);
      ServedIsUnique(comp, served, sorted);
    }
  }
}
