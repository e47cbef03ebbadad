/** Runs of the Michael-Scott queue that show two bounds are sharp. */
module MichaelScottWitness {
  import opened Counters
  import opened MichaelScott
  import opened MichaelScottInvariant
  import opened MichaelScottFifo
  import opened MichaelScottProgress
  import opened MichaelScottSolo
  import Tallies

  // The list can exceed its capacity by the number of sends in flight less one, and current_size_ can drop below
  // zero, where Size() shows a huge value.

  /** TrySend's admission and its whole store, run alone on a list whose tail is last. */
  lemma SoloAdmit<V>(h: Story<V>, t: nat, v: V) returns (h': Story<V>)
    requires h.Runs() && t in h.Last().pc && h.Last().pc[t].Done?
    requires !h.Last().closed && SizeT(h.Last().size) < h.Last().capacity
    ensures h'.Runs() && h'.Last() == h.Last().(pc := h.Last().pc[t := Allocate(v, Forever)])
  {
    h' := TriesToSend(h, t, v, Forever, TrySend(v));
  }

  lemma SoloStore<V>(h: Story<V>, t: nat, v: V, n: nat) returns (h': Story<V>)
    requires h.Runs() && t in h.Last().pc && h.Last().pc[t] == Allocate(v, Forever)
    requires n !in h.Last().nodes && IsLast(h.Last(), h.Last().tail)
    ensures h'.Runs()
    ensures h'.Last() == h.Last().(
                           tail := n, pc := h.Last().pc[t := CountSend],
                           nodes := h.Last().nodes[n := Node(v, Null)][
                             h.Last().tail := Node(h.Last().nodes[h.Last().tail].value, To(n))])
  {
    hide IsRun, Contents;
    var s := h.Last().(nodes := h.Last().nodes[n := Node(v, Null)]);
    h' := Allocated(h, t, n);
    h' := LinksNode(h', t, n, Forever, s);
  }

  /** One whole TryRead, from a reader past its size test. */
  lemma SoloPop<V>(h: Story<V>, t: nat, n: nat) returns (h': Story<V>)
    requires h.Runs() && t in h.Last().pc && h.Last().pc[t] == LoadHead(false)
    requires NextAt(h.Last(), h.Last().head) == To(n) && h.Last().head != h.Last().tail && n in h.Last().nodes
    ensures h'.Runs()
    ensures h'.Last() == h.Last().(
                           head := n, retired := h.Last().retired + [h.Last().head], size := h.Last().size - 1,
                           pc := h.Last().pc[t := Done(Got(h.Last().nodes[n].value))])
  {
    hide IsRun, Contents;
    var s, v := h.Last(), h.Last().nodes[n].value;
    Same(s, t);
    h' := UnlinksFront(h, t, false, s, n);
    h' := RetiresNode(h', t, s.head, n);
    assert s.pc[t := Take(s.head, n)][t := CountRead(v)] == s.pc[t := CountRead(v)];
    h' := CountsRead(h', t, v);
    assert s.pc[t := CountRead(v)][t := Done(Got(v))] == s.pc[t := Done(Got(v))];
  }

  function Idle(threads: set<nat>): map<nat, Pc<int>> { map t | t in threads :: Done(NoCall) }

  lemma SizeOfLast<V>(h: Story<V>)
    requires h.Runs()
    ensures h.Last().size == |Contents(h.Last())| - Tallies.Count(h.Last().pc, Uncounted<V>)
                             + Tallies.Count(h.Last().pc, Unsubtracted<V>)
  {
    SizeLaw(h.states, h.labels, |h.labels|);
  }

  /** Two senders pass the test of a queue of capacity one before either links: it then holds two messages, the
      most that SoftCapacity allows with two threads. */
  lemma SoftCapacityIsSharp() returns (h: Story<int>)
    ensures h.Runs() && h.Last().capacity == 1 && |h.Last().pc| == 2
    ensures |Contents(h.Last())| == h.Last().capacity + 2 - 1
  {
    hide IsRun, Contents, Enabled, Apply, NextAt, SizeT;
    SmallSizes();
    h := Begins(State(1, 0, 0, map[0 := Node(0, Null)], [], 0, false, Idle({0, 1})));
    h := SoloAdmit(h, 0, 10);
    h := SoloAdmit(h, 1, 20);
    h := SoloStore(h, 0, 10, 1);
    h := SoloStore(h, 1, 20, 2);
    SizeOfLast(h);
    BothLinked(h.Last().pc);
  }

  lemma SmallSizes()
    ensures SizeT(0) == 0
  {
  }

  lemma BothLinked(pc: map<nat, Pc<int>>)
    requires pc == map[0 := CountSend, 1 := CountSend]
    ensures Tallies.Count(pc, Uncounted<int>) == 2 && Tallies.Count(pc, Unsubtracted<int>) == 0 && |pc| == 2
  {
    assert Tallies.Where(pc, Uncounted<int>) == {0, 1};
    assert Tallies.Where(pc, Unsubtracted<int>) == {};
    assert pc.Keys == {0, 1};
  }

  /** One message is counted, and two readers are let in by it. */
  lemma TwoReadersLetIn() returns (h: Story<int>)
    ensures h.Runs() && h.Last().capacity == 2 && h.Last().head == 0 && h.Last().tail == 1 && !h.Last().closed
    ensures h.Last().nodes == map[0 := Node(0, To(1)), 1 := Node(10, Null)] && h.Last().size == 1
    ensures h.Last().pc == map[0 := Done(Sent), 1 := Done(NoCall), 2 := LoadHead(false), 3 := LoadHead(false)]
  {
    hide IsRun, Contents;
    h := Begins(State(2, 0, 0, map[0 := Node(0, Null)], [], 0, false, Idle({0, 1, 2, 3})));
    h := SoloAdmit(h, 0, 10);
    h := SoloStore(h, 0, 10, 1);
    h := CountsSend(h, 0);
    h := TriesToRead(h, 2, false);
    h := TriesToRead(h, 3, false);
  }

  /** The counter can wrap: a reader that was let in by the first message removes the second before its sender
      has added to current_size_. The counter drops below zero and Size() shows the largest size_t. */
  lemma SizeCanWrap() returns (h: Story<int>)
    ensures h.Runs() && h.Last().size == -1 && SizeT(h.Last().size) == SIZE_T_RANGE - 1
    ensures Contents(h.Last()) == [] && 0 in h.Last().pc && h.Last().pc[0] == Done(Sent)
  {
    hide IsRun, Contents;
    h := TwoReadersLetIn();
    h := SoloAdmit(h, 1, 20);
    h := SoloStore(h, 1, 20, 2);
    h := SoloPop(h, 2, 1);
    h := SoloPop(h, 3, 2);
    Pointers(h);
  }

  /** The wrapped counter lets a TryRead in on the empty list, and after any number of its passes it is still
      there: a call that should answer at once is stuck in PopMessage. */
  lemma ReaderSpins(passes: nat) returns (h: Story<int>)
    ensures h.Runs() && 0 in h.Last().pc && h.Last().pc[0] == LoadHead(false) && Contents(h.Last()) == []
    ensures |h.labels| >= 4 * passes && h.labels[|h.labels| - 4 * passes..] == Laps(0, passes)
  {
    hide IsRun, Contents;
    h := SizeCanWrap();
    h := TriesToRead(h, 0, false);
    Pointers(h);
    var labels := h.labels;
    for pass := 0 to passes
      invariant h.Runs() && 0 in h.Last().pc && h.Last().pc[0] == LoadHead(false) && Contents(h.Last()) == []
      invariant h.labels == labels + Laps(0, pass)
    {
      Pointers(h);
      Same(h.Last(), 0);
      h := FindsNothing(h, 0, false, h.Last());
    }
  }
}
