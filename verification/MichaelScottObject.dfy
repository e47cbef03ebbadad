/** The queue object of lib/michael_scott_queue.hpp, call by call. */
module MichaelScottObject {
  import opened Counters
  import opened MichaelScott
  import opened MichaelScottInvariant
  import opened MichaelScottFifo
  import opened MichaelScottSafety
  import opened MichaelScottSolo
  import opened Options
  import Tallies

  // A call runs alone while the other threads are paused wherever a run of the step system has left them: in the
  // middle of a store, of a pop, or of helping. Valid says that the object's past is such a run, so each contract
  // speaks of every state that any interleaving can reach. What a weak compare-and-swap may do on its own is a
  // parameter: how often it fails in a row without cause.

  /** How a call ends: it returns or throws, waits for a notification, or repeats TryPopOnce for ever. */
  datatype Outcome<V> = Ended(result: Result<V>) | Waits | Spins

  class MichaelScottQueue<V> {
    const capacity: nat
    var head: nat
    var tail: nat
    var nodes: map<nat, Node<V>>
    var retired: seq<nat>
    var size: int
    var closed: bool
    ghost var pc: map<nat, Pc<V>>
    ghost var story: Story<V>

    ghost function View(): State<V>
      reads this
    {
      State(capacity, head, tail, nodes, retired, size, closed, pc)
    }

    ghost predicate Valid()
      reads this
    {
      story.Runs() && story.Last() == View()
    }

    ghost function Queue(): seq<V>
      reads this
    {
      Contents(View())
    }

    /** 1 when a link was set and the tail not yet moved over it. */
    ghost function Lag(): nat
      reads this
    {
      if NextAt(View(), tail).To? then 1 else 0
    }

    /** dummy is the address the allocator gives, junk what a default-constructed message holds there. */
    constructor (capacity: nat, dummy: nat, junk: V, ghost threads: set<nat>)
      requires capacity >= 1
      ensures Valid() && Initial(View()) && this.capacity == capacity && Queue() == [] && pc.Keys == threads
    {
      this.capacity := capacity;
      head, tail, nodes := dummy, dummy, map[dummy := Node(junk, Null)];
      retired, size, closed := [], 0, false;
      pc := map t | t in threads :: Done(NoCall);
      new;
      story := Begins(View());
      StartsEmpty(View());
    }

    /** The object's past goes on as h. */
    ghost method Follow(h: Story<V>)
      requires h.Runs() && h.Last() == View().(pc := h.Last().pc)
      modifies this`pc, this`story
      ensures Valid() && story == h && pc == h.Last().pc
    {
      pc := h.Last().pc;
      story := h;
    }

    /** The new node of a store, at the address p that the allocator gives. */
    method NewNode(ghost t: nat, p: nat, v: V)
      requires Valid() && t in pc && pc[t].Allocate? && pc[t].v == v && p !in nodes
      modifies this
      ensures Valid() && Queue() == old(Queue()) && pc == old(pc)[t := LoadTail(p, old(pc)[t].loop)]
      ensures nodes == old(nodes)[p := Node(v, Null)] && Lag() == old(Lag()) <= 1
      ensures head == old(head) && retired == old(retired) && size == old(size) && closed == old(closed)
    {
      hide IsRun, Contents, Walk, Initial;
      Pointers(story);
      nodes := nodes[p := Node(v, Null)];
      ghost var h := Allocated(story, t, p);
      Follow(h);
    }

    /** A node that was not linked is freed again. */
    method FreeNode(ghost t: nat, p: nat)
      requires Valid() && t in pc && pc[t] == Discard(p)
      modifies this
      ensures Valid() && Queue() == old(Queue()) && pc == old(pc)[t := Done(GaveUp)] && nodes == old(nodes) - {p}
      ensures head == old(head) && retired == old(retired) && size == old(size) && closed == old(closed)
    {
      hide IsRun, Contents, Walk, Initial;
      nodes := nodes - {p};
      ghost var h := GivesUp(story, t, p);
      Follow(h);
    }

    /** One pass of the store loop: it links the node if the tail is last and the weak compare-and-swap does not
        fail without cause, and otherwise leaves the tail last. */
    method StorePass(ghost t: nat, p: nat, ghost loop: Loop, weak: bool)
      returns (linked: bool, helped: bool)
      requires Valid() && t in pc && pc[t] == LoadTail(p, loop)
      modifies this
      ensures Valid() && p in old(nodes) && nodes.Keys == old(nodes.Keys) && nodes[p] == old(nodes[p]) && Lag() == 0
      ensures old(Lag()) == Tallies.Bit(helped) && (linked <==> !helped && !weak)
      ensures Queue() == old(Queue()) + if linked then [old(nodes[p].value)] else []
      ensures pc == old(pc)[t := if linked then CountSend else Again(p, loop)]
      ensures head == old(head) && retired == old(retired) && size == old(size) && closed == old(closed)
    {
      hide IsRun, Contents, Walk, Again;
      Pointers(story);
      OwnNode(story, t, p, loop);
      ghost var s, h := View(), story;
      Same(s, t);
      linked, helped := false, false;
      var last := tail;
      var next := nodes[last].next;
      if last == tail {
        if next.Null? {
          if weak {
            h := MissesLink(story, t, p, loop, s);
          } else {
            nodes := nodes[last := nodes[last].(next := To(p))];
            if tail == last { tail := p; }
            linked := true;
            h := LinksNode(story, t, p, loop, s);
          }
        } else {
          if tail == last { tail := next.node; }
          helped := true;
          h := HelpsTail(story, t, p, loop, s, next.node);
        }
      }
      Follow(h);
    }

    /** StoreInternal: one pass, after one more if the tail lags, plus one for each spurious failure. */
    method StoreInternal(ghost t: nat, v: V, p: nat, lost: nat) returns (passes: nat)
      requires Valid() && t in pc && pc[t] == Allocate(v, Forever) && p !in nodes
      modifies this
      ensures Valid() && Queue() == old(Queue()) + [v] && pc == old(pc)[t := CountSend]
      ensures passes == lost + 1 + old(Lag())
      ensures head == old(head) && retired == old(retired) && size == old(size) && closed == old(closed)
    {
      hide IsRun, Contents, Walk, Initial, Valid, NextAt, Lag, Queue;
      NewNode(t, p, v);
      passes := 0;
      var failures: nat := lost;
      var linked := false;
      while !linked
        invariant Valid() && pc == old(pc)[t := if linked then CountSend else LoadTail(p, Forever)]
        invariant Queue() == old(Queue()) + if linked then [v] else []
        invariant p in nodes && nodes[p].value == v
        invariant passes + failures + Lag() == lost + old(Lag()) + Tallies.Bit(linked)
        invariant linked ==> failures + Lag() == 0
        invariant head == old(head) && retired == old(retired) && size == old(size) && closed == old(closed)
        decreases !linked, failures + Lag()
      {
        passes := passes + 1;
        var helped: bool;
        linked, helped := StorePass(t, p, Forever, failures > 0);
        if !helped && failures > 0 { failures := failures - 1; }
      }
    }

    /** TryStoreInternal: it stores exactly when its passes, one more if the tail lags and one more for each
        spurious failure, fit into 64 attempts; otherwise it frees the node and leaves the queue alone. */
    method TryStoreInternal(ghost t: nat, v: V, p: nat, lost: nat) returns (stored: bool)
      requires Valid() && t in pc && pc[t] == Allocate(v, Attempt(0)) && p !in nodes
      modifies this
      ensures Valid() && stored == (lost + old(Lag()) < MAX_ATTEMPTS)
      ensures Queue() == old(Queue()) + if stored then [v] else []
      ensures pc == old(pc)[t := if stored then CountSend else Done(GaveUp)]
      ensures !stored ==> nodes.Keys == old(nodes.Keys)
      ensures head == old(head) && retired == old(retired) && size == old(size) && closed == old(closed)
    {
      hide IsRun, Contents, Walk, Initial, Valid, NextAt, Lag, Queue;
      NewNode(t, p, v);
      var failures: nat := lost;
      stored := false;
      for attempt := 0 to MAX_ATTEMPTS
        invariant Valid() && Queue() == old(Queue()) && !stored
        invariant pc == old(pc)[t := if attempt < MAX_ATTEMPTS then LoadTail(p, Attempt(attempt)) else Discard(p)]
        invariant p in nodes && nodes[p].value == v && nodes.Keys == old(nodes.Keys) + {p}
        invariant attempt + failures + Lag() == lost + old(Lag())
        invariant head == old(head) && retired == old(retired) && size == old(size) && closed == old(closed)
      {
        var helped: bool;
        stored, helped := StorePass(t, p, Attempt(attempt), failures > 0);
        if stored { return; }
        if !helped { failures := failures - 1; }
      }
      FreeNode(t, p);
    }

    /** TryPopOnce: it takes the first message unless there is none, the tail is still on the dummy, or the weak
        compare-and-swap fails without cause; if the tail was on the dummy of a message it is not any more. */
    method TryPopOnce(ghost t: nat, ghost once: bool, weak: bool) returns (out: Option<V>)
      requires Valid() && t in pc && pc[t] == LoadHead(once)
      modifies this
      ensures Valid() && (out.Some? <==> old(Queue()) != [] && old(head) != old(tail) && !weak)
      ensures out.Some? ==> old(Queue()) == [out.value] + Queue() && pc == old(pc)[t := CountRead(out.value)]
      ensures out.None? ==> Queue() == old(Queue()) && pc == old(pc)[t := PopAgain(once)]
      ensures out.None? ==> head == old(head) && (old(Queue()) != [] ==> head != tail)
      ensures size == old(size) && closed == old(closed) && nodes == old(nodes)
      ensures retired == old(retired) + if out.Some? then [old(head)] else []
      ensures old(Queue()) == [] ==> tail == old(tail) && story.labels == old(story).labels + Laps(t, 1)
    {
      hide IsRun, Contents, Walk, Initial, PopAgain, Laps;
      Pointers(story);
      ghost var s, h := View(), story;
      Same(s, t);
      out := None;
      var first := head;
      var last := tail;
      var next := nodes[first].next;
      if first == head {
        if first == last {
          if next.Null? {
            h := FindsNothing(story, t, once, s);
          } else {
            if tail == last { tail := next.node; }
            h := HelpsHead(story, t, once, s, next.node);
          }
        } else if next.To? {
          if weak {
            h := MissesHead(story, t, once, s, next.node);
          } else {
            head := next.node;
            out := Some(nodes[next.node].value);
            retired := retired + [first];
            h := UnlinksFront(story, t, once, s, next.node);
            h := RetiresNode(h, t, first, next.node);
          }
        }
      }
      Follow(h);
    }

    /** PopMessage on a queue with a message: one pass, after one more if the tail is on the dummy, plus one for
        each spurious failure. */
    method PopMessage(ghost t: nat, lost: nat) returns (message: V, passes: nat)
      requires Valid() && t in pc && pc[t] == LoadHead(false) && Queue() != []
      modifies this
      ensures Valid() && old(Queue()) == [message] + Queue() && pc == old(pc)[t := CountRead(message)]
      ensures passes == lost + 1 + Tallies.Bit(old(head) == old(tail))
      ensures size == old(size) && closed == old(closed) && nodes == old(nodes) && retired == old(retired) + [old(head)]
    {
      hide IsRun, Contents, Walk, Initial;
      var result: Option<V> := None;
      var failures: nat := lost;
      passes := 0;
      while result.None?
        invariant Valid()
        invariant result.None? ==>
                    Queue() == old(Queue()) && pc == old(pc) && retired == old(retired) && head == old(head)
        invariant result.None? ==>
                    passes + failures + Tallies.Bit(head == tail) == lost + Tallies.Bit(old(head) == old(tail))
        invariant result.Some? ==>
                    old(Queue()) == [result.value] + Queue() && pc == old(pc)[t := CountRead(result.value)]
        invariant result.Some? ==> retired == old(retired) + [old(head)]
        invariant result.Some? ==> passes == lost + 1 + Tallies.Bit(old(head) == old(tail))
        invariant size == old(size) && closed == old(closed) && nodes == old(nodes)
        decreases result.None?, failures + Tallies.Bit(head == tail)
      {
        passes := passes + 1;
        var helps := head == tail;
        result := TryPopOnce(t, false, failures > 0);
        if !helps && failures > 0 { failures := failures - 1; }
      }
      message := result.value;
    }

    /** PopMessage on an empty list, watched for some passes: no field changes, and each pass ends in the very state
        in which it began, so there is no last one. */
    method PopInVain(ghost t: nat, watched: nat)
      requires Valid() && t in pc && pc[t] == LoadHead(false) && Queue() == []
      modifies this
      ensures Valid() && View() == old(View()) && story.labels == old(story).labels + Laps(t, watched)
    {
      hide IsRun, Contents, Walk, Initial, Laps;
      ghost var s, labels := View(), story.labels;
      NoLaps(labels, t);
      var result: Option<V> := None;
      var pass := 0;
      while result.None? && pass < watched
        invariant pass <= watched && result.None? && Valid() && Queue() == []
        invariant View() == s && story.labels == labels + Laps(t, pass)
        decreases watched - pass
      {
        Same(s, t);
        MoreLaps(labels, t, pass);
        result := TryPopOnce(t, false, false);
        pass := pass + 1;
      }
    }

    /** SendPostwork. */
    method CountSent(ghost t: nat)
      requires Valid() && t in pc && pc[t] == CountSend
      modifies this
      ensures Valid() && Queue() == old(Queue()) && size == old(size) + 1 && pc == old(pc)[t := Done(Result.Sent)]
      ensures closed == old(closed)
    {
      hide IsRun, Contents, Walk, Initial;
      size := size + 1;
      ghost var h := CountsSend(story, t);
      Follow(h);
    }

    /** ReadPostwork. */
    method CountRemoved(ghost t: nat, ghost v: V)
      requires Valid() && t in pc && pc[t] == CountRead(v)
      modifies this
      ensures Valid() && Queue() == old(Queue()) && size == old(size) - 1 && pc == old(pc)[t := Done(Got(v))]
      ensures closed == old(closed)
    {
      hide IsRun, Contents, Walk, Initial;
      size := size - 1;
      ghost var h := CountsRead(story, t, v);
      Follow(h);
    }

    /** Send, whatever the other threads are in the middle of: it waits exactly on an open queue whose counter
        shows no room, and otherwise throws or appends its message. */
    method Send(ghost t: nat, v: V, p: nat, lost: nat) returns (o: Outcome<V>)
      requires Valid() && t in pc && pc[t].Done? && p !in nodes
      modifies this
      ensures Valid() && closed == old(closed)
      ensures o == if old(closed) then Ended(ThrewClosed)
                   else if SizeT(old(size)) < capacity then Ended(Result.Sent)
                   else Waits
      ensures Queue() == old(Queue()) + if o == Ended(Result.Sent) then [v] else []
      ensures size == old(size) + if o == Ended(Result.Sent) then 1 else 0
      ensures pc == old(pc)[t := if o.Ended? then Done(o.result) else SendSize(v)]
    {
      hide IsRun, Contents, Walk, Initial, SizeT;
      ghost var h := AsksToSend(story, t, v);
      Follow(h);
      if closed { return Ended(ThrewClosed); }
      if SizeT(size) >= capacity { return Waits; }
      var _ := StoreInternal(t, v, p, lost);
      CountSent(t);
      o := Ended(Result.Sent);
    }

    method TrySend(ghost t: nat, v: V, p: nat, lost: nat) returns (sent: bool)
      requires Valid() && t in pc && pc[t].Done? && p !in nodes
      modifies this
      ensures Valid() && closed == old(closed) && sent == (!old(closed) && SizeT(old(size)) < capacity)
      ensures Queue() == old(Queue()) + if sent then [v] else []
      ensures size == old(size) + if sent then 1 else 0
      ensures pc == old(pc)[t := Done(if sent then Result.Sent else Refused)]
    {
      hide IsRun, Contents, Walk, Initial, SizeT;
      ghost var h := TriesToSend(story, t, v, Forever, Op.TrySend(v));
      Follow(h);
      sent := !closed && SizeT(size) < capacity;
      if !sent { return; }
      var _ := StoreInternal(t, v, p, lost);
      CountSent(t);
    }

    /** TryEnqueue refuses in two ways: at its test, and when 64 passes do not suffice. */
    method TryEnqueue(ghost t: nat, v: V, p: nat, lost: nat) returns (sent: bool)
      requires Valid() && t in pc && pc[t].Done? && p !in nodes
      modifies this
      ensures Valid() && closed == old(closed)
      ensures sent == (!old(closed) && SizeT(old(size)) < capacity && lost + old(Lag()) < MAX_ATTEMPTS)
      ensures Queue() == old(Queue()) + if sent then [v] else []
      ensures size == old(size) + if sent then 1 else 0
      ensures forall u | u != t && u in old(pc) :: u in pc && pc[u] == old(pc[u])
    {
      hide IsRun, Contents, Walk, Initial, SizeT;
      ghost var h := TriesToSend(story, t, v, Attempt(0), Op.TryEnqueue(v));
      Follow(h);
      if closed || SizeT(size) >= capacity { return false; }
      sent := TryStoreInternal(t, v, p, lost);
      if sent { CountSent(t); }
    }

    /** Read, whatever the other threads are in the middle of. Once the counter lets it in it returns the first
        message; if the list is empty all the same, PopMessage repeats TryPopOnce, and after any number of passes,
        which watched is, nothing has changed. */
    method Read(ghost t: nat, lost: nat, watched: nat) returns (o: Outcome<V>)
      requires Valid() && t in pc && pc[t].Done?
      modifies this
      ensures Valid() && closed == old(closed)
      ensures o == if SizeT(old(size)) == 0 then if old(closed) then Ended(ThrewClosed) else Waits
                   else if old(Queue()) == [] then Spins
                   else Ended(Got(old(Queue())[0]))
      ensures Queue() == if o.Ended? && o.result.Got? then old(Queue())[1..] else old(Queue())
      ensures size == old(size) - if o.Ended? && o.result.Got? then 1 else 0
      ensures o.Spins? ==>
                && View() == old(View()).(pc := old(pc)[t := LoadHead(false)])
                && (exists labels: seq<Label<V>> :: story.labels == labels + Laps(t, watched))
      ensures forall u | u != t && u in old(pc) :: u in pc && pc[u] == old(pc[u])
    {
      hide IsRun, Contents, Walk, Initial, SizeT;
      SizeTIsNatural(size);
      ghost var h := AsksToRead(story, t);
      Follow(h);
      if SizeT(size) == 0 { return if closed then Ended(ThrewClosed) else Waits; }
      Pointers(story);
      if nodes[head].next.Null? {
        PopInVain(t, watched);
        return Spins;
      }
      var message, _ := PopMessage(t, lost);
      CountRemoved(t, message);
      o := Ended(Got(message));
    }

    method TryRead(ghost t: nat, lost: nat, watched: nat) returns (o: Outcome<V>)
      requires Valid() && t in pc && pc[t].Done?
      modifies this
      ensures Valid() && closed == old(closed)
      ensures o == if SizeT(old(size)) == 0 then Ended(Nothing)
                   else if old(Queue()) == [] then Spins
                   else Ended(Got(old(Queue())[0]))
      ensures Queue() == if o.Ended? && o.result.Got? then old(Queue())[1..] else old(Queue())
      ensures size == old(size) - if o.Ended? && o.result.Got? then 1 else 0
      ensures o.Spins? ==>
                && View() == old(View()).(pc := old(pc)[t := LoadHead(false)])
                && (exists labels: seq<Label<V>> :: story.labels == labels + Laps(t, watched))
      ensures forall u | u != t && u in old(pc) :: u in pc && pc[u] == old(pc[u])
    {
      hide IsRun, Contents, Walk, Initial, SizeT;
      SizeTIsNatural(size);
      ghost var h := TriesToRead(story, t, false);
      Follow(h);
      if SizeT(size) == 0 { return Ended(Nothing); }
      Pointers(story);
      if nodes[head].next.Null? {
        PopInVain(t, watched);
        return Spins;
      }
      var message, _ := PopMessage(t, lost);
      CountRemoved(t, message);
      o := Ended(Got(message));
    }

    /** TryDequeue makes one pass only. */
    method TryDequeue(ghost t: nat, weak: bool) returns (out: Option<V>)
      requires Valid() && t in pc && pc[t].Done?
      modifies this
      ensures Valid() && closed == old(closed)
      ensures out.Some? <==> SizeT(old(size)) > 0 && old(Queue()) != [] && old(head) != old(tail) && !weak
      ensures old(Queue()) == (if out.Some? then [out.value] else []) + Queue()
      ensures size == old(size) - if out.Some? then 1 else 0
      ensures forall u | u != t && u in old(pc) :: u in pc && pc[u] == old(pc[u])
    {
      hide IsRun, Contents, Walk, Initial, SizeT;
      SizeTIsNatural(size);
      ghost var h := TriesToRead(story, t, true);
      Follow(h);
      if SizeT(size) == 0 { return None; }
      out := TryPopOnce(t, true, weak);
      if out.Some? { CountRemoved(t, out.value); }
    }

    method Close()
      requires Valid()
      modifies this
      ensures Valid() && closed && Queue() == old(Queue()) && size == old(size) && pc == old(pc)
    {
      hide IsRun, Walk, Initial;
      closed := true;
      ghost var h := Advance(story, Shut);
      Follow(h);
    }

    lemma LastTrail() returns (g: Trail)
      requires Valid()
      ensures Inv(View(), g) && Shape(View(), g)
    {
      InRange(story);
      g := AtState(story.states, story.labels, |story.labels|);
    }

    /** The destructor's first loop: it walks the list from head_ and frees each node it leaves. */
    method FreeList(ghost g: Trail) returns (freed: seq<nat>)
      requires Shape(View(), g)
      modifies this`nodes
      ensures freed == g.order[g.h..] && nodes == old(nodes) - (set p | p in freed)
    {
      hide Indexed, Chained;
      OrderDistinct(g);
      freed := [];
      var current := To(head);
      ghost var i := g.h;
      while current.To?
        invariant g.h <= i <= |g.order| && current == (if i < |g.order| then To(g.order[i]) else Null)
        invariant freed == g.order[g.h..i]
        invariant nodes == old(nodes) - (set p | p in freed)
        decreases |g.order| - i
      {
        LinkAt(old(nodes), g, i);
        assert g.order[i] !in freed;
        var p := current.node;
        current := nodes[p].next;
        nodes := nodes - {p};
        freed := freed + [p];
        i := i + 1;
      }
    }

    /** The destructor's second loop frees the retired nodes. */
    method FreeRetired() returns (freed: seq<nat>)
      requires forall p | p in retired :: p in nodes
      requires forall i, j | 0 <= i < j < |retired| :: retired[i] != retired[j]
      modifies this`nodes
      ensures freed == retired && nodes == old(nodes) - (set p | p in freed)
    {
      freed := [];
      for j := 0 to |retired|
        invariant freed == retired[..j] && nodes == old(nodes) - (set p | p in freed)
      {
        assert retired[j] in nodes;
        nodes := nodes - {retired[j]};
        freed := freed + [retired[j]];
      }
    }

    /** The destructor, once every call has returned: it frees every node that is left exactly once. */
    method Destroy() returns (freed: seq<nat>)
      requires Valid() && forall t | t in pc :: pc[t].Done?
      modifies this`nodes
      ensures nodes == map[]
      ensures forall i, j | 0 <= i < j < |freed| :: freed[i] != freed[j]
      ensures forall p :: p in freed <==> p in old(nodes)
    {
      hide IsRun, Owners, Sizes, PcOk, Chained, Walk, Contents;
      ghost var g := LastTrail();
      QuiescentOrder(View(), g);
      freed := FreeList(g);
      var rest := FreeRetired();
      DistinctTogether(g, freed, rest);
      freed := freed + rest;
    }
  }

  lemma NoLaps<V>(labels: seq<Label<V>>, t: nat)
    ensures labels == labels + Laps(t, 0)
  {
  }

  lemma MoreLaps<V>(labels: seq<Label<V>>, t: nat, n: nat)
    ensures labels + Laps(t, n) + Laps(t, 1) == labels + Laps(t, n + 1)
  {
  }

  lemma LinkAt<V>(nodes: map<nat, Node<V>>, g: Trail, i: nat)
    requires Chained(nodes, g) && i < |g.order|
    ensures g.order[i] in nodes && nodes[g.order[i]].next == if i + 1 < |g.order| then To(g.order[i + 1]) else Null
  {
    assert nodes[g.order[i]].next == NextInOrder(g, i);
  }

  lemma OrderDistinct(g: Trail)
    requires Indexed(g)
    ensures forall i, j {:trigger g.order[i], g.order[j]} | 0 <= i < j < |g.order| :: g.order[i] != g.order[j]
  {
  }

  lemma DistinctTogether(g: Trail, a: seq<nat>, b: seq<nat>)
    requires Indexed(g) && g.h <= |g.order| && a == g.order[g.h..]
    requires forall p | p in b :: p !in a
    requires forall i, j | 0 <= i < j < |b| :: b[i] != b[j]
    ensures forall i, j | 0 <= i < j < |a + b| :: (a + b)[i] != (a + b)[j]
  {
    forall i, j | 0 <= i < j < |a| ensures a[i] != a[j] {
      assert a[i] == g.order[g.h + i] && a[j] == g.order[g.h + j];
    }
    forall i, j | 0 <= i < |a| && 0 <= j < |b| ensures a[i] != b[j] {
      assert b[j] in b;
    }
  }
}
