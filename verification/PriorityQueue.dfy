/** The queue object of lib/min-heap_queue.hpp, one call at a time: every operation runs under the queue's one
    mutex, so calls take effect one after the other. */
module PriorityQueue {
  import opened Options
  import opened Roles
  import opened PrioritySpec
  import opened PriorityHeap

  /** Blocks is a call that is left waiting. */
  datatype Outcome<V> =
    | Sent | Got(value: V) | Refused | Nothing | Blocks
    | ThrewRole | ThrewDeadlock | ThrewClosed | ThrewMessage

  /** The queue after a read that goes through. */
  function Dequeued<V>(comp: (V, V) -> bool, q: seq<V>): seq<V>
    requires q != []
  {
    Without(q, Best(comp, q))
  }

  class PriorityQueue<V(!new)> {
    const capacity: nat
    const comp: (V, V) -> bool
    const category: Category
    const policy: Policy
    var size: nat
    var closed: bool
    var currentSeq: nat
    var heap: seq<Node<V>>
    var roles: map<nat, Role>
    ghost var pending: seq<Node<V>>

    /** The heap holds the waiting messages, whose ids grow in the order of their arrival. */
    ghost predicate Valid()
      reads this
    {
      && StrictWeakOrder(comp) && capacity >= 1
      && IsHeap(comp, heap) && size == |heap| <= capacity
      && Arrival(pending) && multiset(heap) == multiset(pending)
      && forall i | 0 <= i < |pending| :: pending[i].id < currentSeq
    }

    /** The waiting messages in the order of their arrival. */
    ghost function Queue(): seq<V>
      reads this
    {
      Values(pending)
    }

    constructor (capacity: nat, comp: (V, V) -> bool, category: Category, policy: Policy)
      requires capacity >= 1 && StrictWeakOrder(comp)
      ensures Valid() && Queue() == [] && !closed && roles == map[]
      ensures this.capacity == capacity && this.comp == comp && this.category == category && this.policy == policy
    {
      this.capacity, this.comp, this.category, this.policy := capacity, comp, category, policy;
      size, closed, currentSeq, heap, roles, pending := 0, false, 0, [], map[], [];
    }

    /** The constructor throws for a capacity of zero. */
    static method Create(capacity: nat, comp: (V, V) -> bool, category: Category, policy: Policy)
      returns (q: Option<PriorityQueue<V>>)
      requires StrictWeakOrder(comp)
      ensures q.None? <==> capacity == 0
      ensures q.Some? ==> fresh(q.value) && q.value.Valid() && q.value.Queue() == []
      ensures q.Some? ==> q.value.capacity == capacity && q.value.comp == comp
    {
      if capacity == 0 { return None; }
      var queue := new PriorityQueue(capacity, comp, category, policy);
      q := Some(queue);
    }

    predicate WarnsSender(role: Role) { SingleConsumer(category) && role == Both }

    predicate WarnsReader(role: Role) { SingleProducer(category) && role == Both }

    /** Size of the heap in terms of the abstract queue. */
    lemma Sizes()
      requires Valid()
      ensures |Queue()| == |heap| == size
    {
      assert |multiset(heap)| == |multiset(pending)|;
    }

    /** StoreMessage: the id is drawn first, so a message whose copy throws uses one up. */
    method StoreMessage(v: V, throws: bool)
      requires Valid() && size < capacity
      modifies this
      ensures Valid() && Queue() == old(Queue()) + if throws then [] else [v]
      ensures currentSeq == old(currentSeq) + 1
      ensures pending == old(pending) + if throws then [] else [Node(old(currentSeq), v)]
      ensures throws ==> heap == old(heap) && size == old(size)
      ensures closed == old(closed) && roles == old(roles)
    {
      hide StrictWeakOrder, IsHeap, Arrival, Values;
      var id := currentSeq;
      currentSeq := currentSeq + 1;
      if throws {
        assert pending + [] == pending && Queue() + [] == Queue();
        return;
      }
      var node := Node(id, v);
      assert (heap + [node])[..|heap|] == heap;
      AppendKeepsArrival(pending, node);
      heap := SiftUp(comp, heap + [node]);
      pending := pending + [node];
      size := |heap|;
    }

    /** The front of the heap is the first least of the waiting messages. */
    lemma FrontIsBest() returns (k: nat)
      requires Valid() && heap != []
      ensures k < |pending| && heap[0] == pending[k] && |Queue()| == |pending| && k == Best(comp, Queue())
      ensures heap[0].data == Queue()[k]
    {
      Sizes();
      k := Best(comp, Queue());
      BestIsFirstLeast(comp, Queue());
      var best := pending[k];
      assert heap[0] in multiset(heap);
      var j :| 0 <= j < |pending| && pending[j] == heap[0];
      assert best in multiset(pending);
      var i :| 0 <= i < |heap| && heap[i] == best;
      FrontIsGreatest(comp, heap, i);
      ComparatorIsTotalOrder(comp, heap[0], best, best);
    }

    /** PopMessage; throws says that moving the message out throws, after pop_heap has moved its node to the back. */
    method PopMessage(throws: bool) returns (message: Option<V>)
      requires Valid() && size > 0
      modifies this
      ensures message.None? <==> throws
      ensures !throws ==> Valid() && message.value == old(Queue())[Best(comp, old(Queue()))]
      ensures !throws ==> Queue() == Dequeued(comp, old(Queue()))
      ensures throws ==> pending == old(pending) && multiset(heap) == multiset(pending)
      ensures throws ==> size == |heap| && currentSeq == old(currentSeq)
      ensures throws ==> heap[|heap| - 1] == old(heap[0]) && IsHeap(comp, heap[..|heap| - 1])
      ensures closed == old(closed) && roles == old(roles)
    {
      hide StrictWeakOrder, IsHeap, Best, Arrival, Without, Values;
      ghost var k := FrontIsBest();
      heap := PopHeap(comp, heap);
      if throws { return None; }
      RemoveKeepsArrival(pending, k);
      LastRemoved(heap, pending, k);
      message := Some(heap[|heap| - 1].data);
      heap := heap[..|heap| - 1];
      size := |heap|;
      pending := Without(pending, k);
      assert forall i | 0 <= i < |pending| :: pending[i] in pending;
    }

    method Send(t: nat, v: V, throws: bool) returns (o: Outcome<V>)
      requires Valid()
      modifies this
      ensures Valid() && closed == old(closed)
      ensures RoleOf(roles, t) == Account(policy, RoleOf(old(roles), t), Producer)
      ensures forall u | u != t :: RoleOf(roles, u) == RoleOf(old(roles), u)
      ensures o == ThrewRole <==> Throws(policy, RoleOf(old(roles), t), Producer)
      ensures o != ThrewRole ==>
                var full := |old(Queue())| == capacity;
                var warned := category in {SPSC, MPSC} && RoleOf(roles, t) == Both && !policy.NoException?;
                && (o == ThrewDeadlock <==> full && warned)
                && (o == ThrewClosed <==> closed && !(full && warned))
                && (o == Blocks <==> full && !closed && !warned)
                && (o == ThrewMessage <==> !full && !closed && throws)
                && (o == Sent <==> !full && !closed && !throws)
      ensures Queue() == if o == Sent then old(Queue()) + [v] else old(Queue())
    {
      Sizes();
      var threw, accounted := AccountThreads(policy, roles, t, Producer);
      roles := accounted;
      if threw { return ThrewRole; }
      if WarnsSender(RoleOf(roles, t)) && size >= capacity && !policy.NoException? { return ThrewDeadlock; }
      if closed { return ThrewClosed; }
      if size >= capacity { return Blocks; }
      StoreMessage(v, throws);
      return if throws then ThrewMessage else Sent;
    }

    method TrySend(t: nat, v: V, throws: bool) returns (o: Outcome<V>)
      requires Valid()
      modifies this
      ensures Valid() && closed == old(closed)
      ensures RoleOf(roles, t) == Account(policy, RoleOf(old(roles), t), Producer)
      ensures forall u | u != t :: RoleOf(roles, u) == RoleOf(old(roles), u)
      ensures o == ThrewRole <==> Throws(policy, RoleOf(old(roles), t), Producer)
      ensures o != ThrewRole ==>
                && (o == Refused <==> |old(Queue())| == capacity || closed)
                && (o == ThrewMessage <==> |old(Queue())| < capacity && !closed && throws)
                && (o == Sent <==> |old(Queue())| < capacity && !closed && !throws)
      ensures Queue() == if o == Sent then old(Queue()) + [v] else old(Queue())
    {
      Sizes();
      var threw, accounted := AccountThreads(policy, roles, t, Producer);
      roles := accounted;
      if threw { return ThrewRole; }
      if WarnsSender(RoleOf(roles, t)) && size >= capacity { return Refused; }
      if size >= capacity || closed { return Refused; }
      StoreMessage(v, throws);
      return if throws then ThrewMessage else Sent;
    }

    /** A read that throws after pop_heap leaves its message last in the vector, behind a heap of the others: it
        is still there, but the vector is a heap again if and only if it has no other message. */
    method Read(t: nat, throws: bool) returns (o: Outcome<V>)
      requires Valid()
      modifies this
      ensures closed == old(closed) && RoleOf(roles, t) == Account(policy, RoleOf(old(roles), t), Consumer)
      ensures forall u | u != t :: RoleOf(roles, u) == RoleOf(old(roles), u)
      ensures o == ThrewRole <==> Throws(policy, RoleOf(old(roles), t), Consumer)
      ensures o != ThrewRole ==>
                var empty := old(Queue()) == [];
                var warned := category in {SPSC, SPMC} && RoleOf(roles, t) == Both && !policy.NoException?;
                && (o == ThrewDeadlock <==> empty && warned)
                && (o == ThrewClosed <==> empty && closed && !warned)
                && (o == Blocks <==> empty && !closed && !warned)
                && (o == ThrewMessage <==> !empty && throws)
                && (o.Got? <==> !empty && !throws)
                && (o.Got? ==> o.value == old(Queue())[Best(comp, old(Queue()))])
      ensures Queue() == if o.Got? then Dequeued(comp, old(Queue())) else old(Queue())
      ensures multiset(heap) == multiset(pending)
      ensures Valid() <==> o != ThrewMessage || |old(Queue())| == 1
    {
      Sizes();
      var threw, accounted := AccountThreads(policy, roles, t, Consumer);
      roles := accounted;
      if threw { return ThrewRole; }
      if WarnsReader(RoleOf(roles, t)) && size == 0 && !policy.NoException? { return ThrewDeadlock; }
      if size == 0 { return if closed then ThrewClosed else Blocks; }
      o := Pop(throws);
    }

    method TryRead(t: nat, throws: bool) returns (o: Outcome<V>)
      requires Valid()
      modifies this
      ensures closed == old(closed) && RoleOf(roles, t) == Account(policy, RoleOf(old(roles), t), Consumer)
      ensures forall u | u != t :: RoleOf(roles, u) == RoleOf(old(roles), u)
      ensures o == ThrewRole <==> Throws(policy, RoleOf(old(roles), t), Consumer)
      ensures o != ThrewRole ==>
                && (o == Nothing <==> old(Queue()) == [])
                && (o == ThrewMessage <==> old(Queue()) != [] && throws)
                && (o.Got? <==> old(Queue()) != [] && !throws)
                && (o.Got? ==> o.value == old(Queue())[Best(comp, old(Queue()))])
      ensures Queue() == if o.Got? then Dequeued(comp, old(Queue())) else old(Queue())
      ensures multiset(heap) == multiset(pending)
      ensures Valid() <==> o != ThrewMessage || |old(Queue())| == 1
    {
      Sizes();
      var threw, accounted := AccountThreads(policy, roles, t, Consumer);
      roles := accounted;
      if threw { return ThrewRole; }
      if WarnsReader(RoleOf(roles, t)) && size == 0 { return Nothing; }
      if size == 0 { return Nothing; }
      o := Pop(throws);
    }

    /** PopMessage as a call sees it. */
    method Pop(throws: bool) returns (o: Outcome<V>)
      requires Valid() && Queue() != []
      modifies this
      ensures closed == old(closed) && roles == old(roles)
      ensures o == if throws then ThrewMessage else Got(old(Queue())[Best(comp, old(Queue()))])
      ensures Queue() == if throws then old(Queue()) else Dequeued(comp, old(Queue()))
      ensures multiset(heap) == multiset(pending)
      ensures Valid() <==> !throws || |old(Queue())| == 1
    {
      Sizes();
      ghost var was := heap;
      ghost var k := FrontIsBest();
      var message := PopMessage(throws);
      if throws {
        FrontAtBack(comp, was, pending, heap);
        o := ThrewMessage;
      } else {
        o := Got(message.value);
      }
    }

    /** After Close every send throws or is refused, and reads go on until the queue is empty. */
    method Close()
      requires Valid()
      modifies this`closed
      ensures Valid() && closed && Queue() == old(Queue())
    {
      closed := true;
    }
  }

  /** With two nodes or more, a front that went to the back leaves no heap behind. */
  lemma FrontAtBack<V(!new)>(comp: (V, V) -> bool, h: seq<Node<V>>, nodes: seq<Node<V>>, h': seq<Node<V>>)
    requires StrictWeakOrder(comp) && IsHeap(comp, h) && h != [] && Arrival(nodes)
    requires multiset(h) == multiset(nodes) == multiset(h') && |h'| == |h| && h'[|h| - 1] == h[0]
    ensures IsHeap(comp, h') <==> |h| == 1
  {
    var n := |h| - 1;
    if n > 0 && IsHeap(comp, h') {
      // both fronts would be above each other, so they would be one node, which occurs only once
      FrontIsGreatest(comp, h', n);
      assert h'[0] in multiset(h) && h'[n] in multiset(nodes) && h'[0] in multiset(nodes);
      var i :| 0 <= i < |h| && h[i] == h'[0];
      FrontIsGreatest(comp, h, i);
      ComparatorIsTotalOrder(comp, h[0], h'[0], h[0]);
      SameNode(nodes, h'[0], h'[n]);
      EndsTwice(h');
      WaitsOnce(nodes, h'[0]);
    }
  }

  lemma SameNode<V>(nodes: seq<Node<V>>, a: Node<V>, b: Node<V>)
    requires Arrival(nodes) && a in nodes && b in nodes && a.id == b.id
    ensures a == b
  {
  }

  lemma WaitsOnce<V>(nodes: seq<Node<V>>, a: Node<V>)
    requires Arrival(nodes) && a in nodes
    ensures multiset(nodes)[a] == 1
  {
    var i :| 0 <= i < |nodes| && nodes[i] == a;
    assert nodes == nodes[..i] + [a] + nodes[i + 1..];
    assert a !in nodes[..i] && a !in nodes[i + 1..];
  }

  lemma EndsTwice<T>(h: seq<T>)
    requires |h| >= 2 && h[0] == h[|h| - 1]
    ensures multiset(h)[h[0]] >= 2
  {
    assert h == [h[0]] + h[1..|h| - 1] + [h[|h| - 1]];
  }

  lemma LastRemoved<V>(heap: seq<Node<V>>, nodes: seq<Node<V>>, k: nat)
    requires k < |nodes| && multiset(heap) == multiset(nodes) && heap != [] && heap[|heap| - 1] == nodes[k]
    ensures multiset(heap[..|heap| - 1]) == multiset(Without(nodes, k))
  {
    assert heap == heap[..|heap| - 1] + [heap[|heap| - 1]];
    assert nodes == nodes[..k] + [nodes[k]] + nodes[k + 1..];
    assert multiset(heap[..|heap| - 1]) == multiset(heap) - multiset{nodes[k]};
    assert multiset(Without(nodes, k)) == multiset(nodes) - multiset{nodes[k]};
  }

  lemma AppendKeepsArrival<V>(nodes: seq<Node<V>>, node: Node<V>)
    requires Arrival(nodes) && forall i | 0 <= i < |nodes| :: nodes[i].id < node.id
    ensures Arrival(nodes + [node]) && Values(nodes + [node]) == Values(nodes) + [node.data]
  {
  }

  lemma RemoveKeepsArrival<V>(nodes: seq<Node<V>>, k: nat)
    requires k < |nodes| && Arrival(nodes)
    ensures Arrival(Without(nodes, k))
    ensures Values(Without(nodes, k)) == Without(Values(nodes), k)
    ensures forall n | n in Without(nodes, k) :: n in nodes
  {
    var rest := Without(nodes, k);
    assert forall i | 0 <= i < |rest| :: rest[i] == nodes[if i < k then i else i + 1];
  }

  /** A read by a consumer of a queue that is not empty. */
  method ReadNext<V(!new)>(queue: PriorityQueue<V>, t: nat, got: seq<V>) returns (got': seq<V>)
    requires queue.Valid() && RoleOf(queue.roles, t) in {NoInfo, Consumer} && queue.Queue() != []
    modifies queue
    ensures got' == got + [old(queue.Queue())[Best(queue.comp, old(queue.Queue()))]]
    ensures queue.Valid() && queue.Queue() == Dequeued(queue.comp, old(queue.Queue()))
    ensures queue.closed == old(queue.closed) && RoleOf(queue.roles, t) in {NoInfo, Consumer}
  {
    hide StrictWeakOrder, IsHeap, Arrival, Best, Without, Values;
    var o := queue.Read(t, false);
    got' := got + [o.value];
  }

  /** Reading until the queue is empty gives all the messages that were waiting, by priority and then in the order
      of their arrival: their stable sort. */
  method Drain<V(!new)>(queue: PriorityQueue<V>, t: nat) returns (got: seq<V>)
    requires queue.Valid() && RoleOf(queue.roles, t) in {NoInfo, Consumer}
    modifies queue
    ensures got == StableSort(queue.comp, old(queue.Queue()))
    ensures InServedOrder(queue.comp, old(queue.pending), got)
    ensures queue.Valid() && queue.Queue() == []
    ensures queue.closed == old(queue.closed) && RoleOf(queue.roles, t) in {NoInfo, Consumer}
  {
    hide StrictWeakOrder, IsHeap, Arrival, Best, StableSort, Without, Values, Throws, Account, InServedOrder;
    got := [];
    queue.Sizes();
    while queue.size > 0
      invariant queue.Valid() && RoleOf(queue.roles, t) in {NoInfo, Consumer}
      invariant got + StableSort(queue.comp, queue.Queue()) == StableSort(queue.comp, old(queue.Queue()))
      invariant |queue.Queue()| == queue.size && queue.closed == old(queue.closed)
      decreases queue.size
    {
      SortTakesBest(queue.comp, queue.Queue());
      got := ReadNext(queue, t, got);
      queue.Sizes();
    }
    assert queue.Queue() == [];
    SortIsServedOrder(queue.comp, old(queue.pending), got);
  }

  datatype Call<V> =
    | Send(t: nat, v: V, throws: bool)
    | TrySend(t: nat, v: V, throws: bool)
    | Read(t: nat, throws: bool)
    | TryRead(t: nat, throws: bool)

  /** How a call on a closed queue can end while the messages due, in order of service, wait in it. */
  ghost predicate ClosedAnswer<V>(call: Call<V>, o: Outcome<V>, due: seq<V>) {
    match call
    case Send(_, _, _) => o in {ThrewRole, ThrewDeadlock, ThrewClosed}
    case TrySend(_, _, _) => o in {ThrewRole, Refused}
    case Read(_, throws) =>
      || o == ThrewRole
      || (if due == [] then o in {ThrewDeadlock, ThrewClosed} else o == if throws then ThrewMessage else Got(due[0]))
    case TryRead(_, throws) =>
      || o == ThrewRole
      || (o == if due == [] then Nothing else if throws then ThrewMessage else Got(due[0]))
  }

  method Perform<V(!new)>(queue: PriorityQueue<V>, call: Call<V>) returns (o: Outcome<V>)
    requires queue.Valid() && queue.closed
    modifies queue
    ensures queue.closed && ClosedAnswer(call, o, StableSort(queue.comp, old(queue.Queue())))
    ensures StableSort(queue.comp, old(queue.Queue())) ==
            (if o.Got? then [o.value] else []) + StableSort(queue.comp, queue.Queue())
    ensures queue.Valid() <==> o != ThrewMessage || |old(queue.Queue())| == 1
  {
    hide StrictWeakOrder, IsHeap, Arrival, Best, Without, Values, Throws, Account, StableSort;
    ghost var q := queue.Queue();
    if q != [] { SortTakesBest(queue.comp, q); }
    match call
    case Send(t, v, throws) => o := queue.Send(t, v, throws);
    case TrySend(t, v, throws) => o := queue.TrySend(t, v, throws);
    case Read(t, throws) => o := queue.Read(t, throws);
    case TryRead(t, throws) => o := queue.TryRead(t, throws);
  }

  /** The messages that a sequence of calls got, in order. */
  function Received<V>(outcomes: seq<Outcome<V>>): seq<V> {
    if outcomes == [] then []
    else
      var last := outcomes[|outcomes| - 1];
      Received(outcomes[..|outcomes| - 1]) + if last.Got? then [last.value] else []
  }

  /** What is left of sorted after the outcomes. */
  ghost function Due<V>(sorted: seq<V>, outcomes: seq<Outcome<V>>): seq<V> {
    var got := Received(outcomes);
    if got <= sorted then sorted[|got|..] else []
  }

  lemma NothingReceived<V>(sorted: seq<V>)
    ensures sorted == Received<V>([]) + sorted
  {
  }

  /** Outcome i is one that the messages still due then allow. */
  ghost predicate AnsweredAt<V>(calls: seq<Call<V>>, outcomes: seq<Outcome<V>>, sorted: seq<V>, i: nat)
    requires i < |outcomes| <= |calls|
  {
    ClosedAnswer(calls[i], outcomes[i], Due(sorted, outcomes[..i]))
  }

  lemma Answers<V>(calls: seq<Call<V>>, outcomes: seq<Outcome<V>>, o: Outcome<V>, sorted: seq<V>, due: seq<V>)
    requires |outcomes| < |calls| && sorted == Received(outcomes) + due
    requires forall i | 0 <= i < |outcomes| :: AnsweredAt(calls, outcomes, sorted, i)
    requires ClosedAnswer(calls[|outcomes|], o, due)
    ensures forall i | 0 <= i <= |outcomes| :: AnsweredAt(calls, outcomes + [o], sorted, i)
  {
    DueIs(sorted, outcomes, due);
    hide ClosedAnswer, Received, Due;
    var all := outcomes + [o];
    forall i | 0 <= i <= |outcomes| ensures AnsweredAt(calls, all, sorted, i) {
      assert all[..i] == outcomes[..i] && outcomes[..|outcomes|] == outcomes;
      assert i < |outcomes| ==> AnsweredAt(calls, outcomes, sorted, i);
    }
  }

  lemma ReceivedNext<V>(outcomes: seq<Outcome<V>>, o: Outcome<V>)
    ensures Received(outcomes + [o]) == Received(outcomes) + if o.Got? then [o.value] else []
  {
    assert (outcomes + [o])[..|outcomes|] == outcomes;
  }

  lemma DueIs<V>(sorted: seq<V>, outcomes: seq<Outcome<V>>, due: seq<V>)
    requires sorted == Received(outcomes) + due
    ensures Due(sorted, outcomes) == due
  {
  }

  /** Close, and after it any calls by any threads, up to a read whose message throws and leaves no heap behind:
      no send goes through, and the reads get a front part of what was waiting, by priority and then in the order of
      arrival. A read says that there is no message exactly when all of them have been got. */
  method CloseAndDrain<V(!new)>(queue: PriorityQueue<V>, calls: seq<Call<V>>) returns (outcomes: seq<Outcome<V>>)
    requires queue.Valid()
    modifies queue
    ensures queue.closed && |outcomes| <= |calls|
    ensures StableSort(queue.comp, old(queue.Queue())) == Received(outcomes) + StableSort(queue.comp, queue.Queue())
    ensures InServedOrder(queue.comp, old(queue.pending), Received(outcomes) + StableSort(queue.comp, queue.Queue()))
    ensures forall i | 0 <= i < |outcomes| ::
              AnsweredAt(calls, outcomes, StableSort(queue.comp, old(queue.Queue())), i)
    ensures |outcomes| < |calls| || !queue.Valid() ==> outcomes != [] && outcomes[|outcomes| - 1] == ThrewMessage
    ensures |outcomes| < |calls| ==> !queue.Valid()
  {
    hide StrictWeakOrder, IsHeap, Arrival, StableSort, ClosedAnswer, AnsweredAt, Received, Due, Values;
    hide InServedOrder;
    queue.Close();
    ghost var sorted := StableSort(queue.comp, queue.Queue());
    SortIsServedOrder(queue.comp, old(queue.pending), sorted);
    outcomes := [];
    NothingReceived(sorted);
    while |outcomes| < |calls|
      invariant |outcomes| <= |calls| && queue.Valid() && queue.closed
      invariant sorted == Received(outcomes) + StableSort(queue.comp, queue.Queue())
      invariant forall i | 0 <= i < |outcomes| :: AnsweredAt(calls, outcomes, sorted, i)
    {
      ghost var due := StableSort(queue.comp, queue.Queue());
      queue.Sizes();
      var lone := queue.size == 1;
      var o := Perform(queue, calls[|outcomes|]);
      Answers(calls, outcomes, o, sorted, due);
      ReceivedNext(outcomes, o);
      outcomes := outcomes + [o];
      if o.ThrewMessage? && !lone { return; }
    }
  }
}
