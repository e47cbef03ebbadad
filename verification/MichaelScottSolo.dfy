/** One thread of the Michael-Scott queue running alone for a while, the others paused wherever they are. */
module MichaelScottSolo {
  import opened Counters
  import opened MichaelScott
  import opened MichaelScottInvariant
  import opened MichaelScottFifo
  import opened MichaelScottSafety

  // Each lemma extends a run by the steps of one pass of a loop, or of one test, and says what the pass did.

  /** One step of thread t, seen as a move from one control state to another with an effect. */
  lemma Walks<V>(h: Story<V>, l: Label<V>, s: State<V>, from: Pc<V>, e: Effect<V>, to: Pc<V>) returns (h': Story<V>)
    requires h.Runs() && !l.Shut? && l.t in s.pc && h.Last() == s.(pc := s.pc[l.t := from])
    requires Enabled(h.Last(), l) && EffectOf(h.Last(), l) == e && Target(h.Last(), l) == to
    ensures h'.Runs() && h'.Last() == Perform(s, e).(pc := s.pc[l.t := to])
    ensures FifoStep(s, e, h'.Last()) && h'.labels == h.labels + [l]
  {
    hide EffectOf, Target, Enabled;
    h' := Advance(h, l);
    assert s.pc[l.t := from][l.t := to] == s.pc[l.t := to];
    assert FifoStep(s, e, h'.Last()) by {
      hide IsRun, Inv, Walk;
      var g := AtState(h.states, h.labels, |h.labels|) by { hide *; InRange(h); }
      StepIsFifo(h.Last(), g, l);
      SameContents(h.Last(), s);
    }
  }

  lemma InRange<V>(h: Story<V>)
    requires h.Runs()
    ensures IsRun(h.states, h.labels) && |h.labels| < |h.states|
  {
  }

  /** The messages do not depend on the threads. */
  lemma SameContents<V>(a: State<V>, b: State<V>)
    requires a == b.(pc := a.pc)
    ensures Contents(a) == Contents(b)
  {
  }

  /** What the tail pointer and the head pointer lead to, in every state of every run. */
  lemma Pointers<V>(h: Story<V>)
    requires h.Runs()
    ensures var s := h.Last();
            && s.head in s.nodes && s.tail in s.nodes
            && (s.nodes[s.tail].next.To? ==> IsLast(s, s.nodes[s.tail].next.node))
            && (s.nodes[s.head].next.Null? <==> Contents(s) == [])
            && (s.nodes[s.head].next.Null? ==> s.head == s.tail)
            && (s.nodes[s.head].next.To? ==> TakesFront(s, s.nodes[s.head].next.node))
  {
    InRange(h);
    var g := AtState(h.states, h.labels, |h.labels|);
    hide IsRun, Owners, Sizes, PcOk, Walk;
    ChainIsOrder(h.Last(), g);
    LinkFrom(h.Last().nodes, g, g.h);
    LinkFrom(h.Last().nodes, g, g.k);
    if g.k + 1 < |g.order| { LinkFrom(h.Last().nodes, g, g.k + 1); }
  }

  ghost predicate TakesFront<V>(s: State<V>, n: nat) {
    n in s.nodes && Contents(s) != [] && s.nodes[n].value == Contents(s)[0]
  }

  lemma LinkFrom<V>(nodes: map<nat, Node<V>>, g: Trail, i: nat)
    requires Chained(nodes, g) && i < |g.order|
    ensures g.order[i] in nodes && nodes[g.order[i]].next == NextInOrder(g, i)
    ensures i + 1 < |g.order| ==> g.order[i + 1] in nodes
  {
    assert nodes[g.order[i]].next == NextInOrder(g, i);
  }

  /** The node a thread is about to link is its own: allocated, without a link, and not in the list. */
  lemma OwnNode<V>(h: Story<V>, t: nat, n: nat, loop: Loop)
    requires h.Runs() && t in h.Last().pc && h.Last().pc[t] == LoadTail(n, loop)
    ensures IsLast(h.Last(), n) && n != h.Last().tail
  {
    InRange(h);
    var g := AtState(h.states, h.labels, |h.labels|);
    hide IsRun, Sizes, PcOk, Walk;
    assert FreshNode(h.Last().pc[t]) == To(n);
    assert ThreadOwns(h.Last(), g, t);
  }

  lemma Same<V>(s: State<V>, t: nat)
    requires t in s.pc
    ensures s == s.(pc := s.pc[t := s.pc[t]])
  {
    assert s.pc == s.pc[t := s.pc[t]];
  }

  /** The allocator hands out n. */
  lemma Allocated<V>(h: Story<V>, t: nat, n: nat) returns (h': Story<V>)
    requires h.Runs() && t in h.Last().pc && h.Last().pc[t].Allocate? && n !in h.Last().nodes
    ensures h'.Runs() && Contents(h'.Last()) == Contents(h.Last())
    ensures h'.Last() == h.Last().(nodes := h.Last().nodes[n := Node(h.Last().pc[t].v, Null)],
                                   pc := h.Last().pc[t := LoadTail(n, h.Last().pc[t].loop)])
  {
    hide IsRun, Contents;
    var s := h.Last();
    Same(s, t);
    h' := Walks(h, Alloc(t, n), s, s.pc[t], Allocates(n, s.pc[t].v), LoadTail(n, s.pc[t].loop));
  }

  /** The loads of a pass of the store loop. */
  lemma LooksAtTail<V>(h: Story<V>, t: nat, n: nat, loop: Loop, s: State<V>) returns (h': Story<V>)
    requires h.Runs() && t in s.pc && h.Last() == s.(pc := s.pc[t := LoadTail(n, loop)])
    ensures h'.Runs() && h'.Last() == s.(pc := s.pc[t := CheckTail(n, loop, s.tail, NextAt(s, s.tail))])
  {
    hide IsRun, Contents, FifoStep;
    var last := s.tail;
    h' := Walks(h, Step(t), s, LoadTail(n, loop), Silent, LoadNext(n, loop, last));
    h' := Walks(h', Step(t), s, LoadNext(n, loop, last), Silent, CheckTail(n, loop, last, NextAt(s, last)));
  }

  /** A pass that links the node and swings the tail. */
  lemma LinksNode<V>(h: Story<V>, t: nat, n: nat, loop: Loop, s: State<V>) returns (h': Story<V>)
    requires h.Runs() && t in s.pc && h.Last() == s.(pc := s.pc[t := LoadTail(n, loop)])
    requires IsLast(s, s.tail) && n in s.nodes && n != s.tail
    ensures h'.Runs() && Contents(h'.Last()) == Contents(s) + [s.nodes[n].value]
    ensures h'.Last() == s.(tail := n, pc := s.pc[t := CountSend],
                            nodes := s.nodes[s.tail := s.nodes[s.tail].(next := To(n))])
  {
    hide IsRun, Contents;
    var last := s.tail;
    h' := LooksAtTail(h, t, n, loop, s);
    h' := Walks(h', Step(t), s, CheckTail(n, loop, last, Null), Silent, CasNext(n, loop, last));
    h' := Walks(h', Step(t), s, CasNext(n, loop, last), Links(n, last), SwingTail(n, last));
    var s1 := Perform(s, Links(n, last));
    SameContents(h'.Last(), s1);
    h' := Walks(h', Step(t), s1, SwingTail(n, last), Swings(n), CountSend);
  }

  /** A pass whose compare-and-swap of next fails without cause. */
  lemma MissesLink<V>(h: Story<V>, t: nat, n: nat, loop: Loop, s: State<V>) returns (h': Story<V>)
    requires h.Runs() && t in s.pc && h.Last() == s.(pc := s.pc[t := LoadTail(n, loop)]) && IsLast(s, s.tail)
    ensures h'.Runs() && h'.Last() == s.(pc := s.pc[t := Again(n, loop)])
    ensures Contents(h'.Last()) == Contents(s)
  {
    hide IsRun, Contents, FifoStep, Again;
    var last := s.tail;
    h' := LooksAtTail(h, t, n, loop, s);
    h' := Walks(h', Step(t), s, CheckTail(n, loop, last, Null), Silent, CasNext(n, loop, last));
    h' := Walks(h', WeakFail(t), s, CasNext(n, loop, last), Silent, Again(n, loop));
    SameContents(h'.Last(), s);
  }

  /** A pass that helps the tail over its link. */
  lemma HelpsTail<V>(h: Story<V>, t: nat, n: nat, loop: Loop, s: State<V>, succ: nat) returns (h': Story<V>)
    requires h.Runs() && t in s.pc && h.Last() == s.(pc := s.pc[t := LoadTail(n, loop)])
    requires NextAt(s, s.tail) == To(succ)
    ensures h'.Runs() && h'.Last() == s.(tail := succ, pc := s.pc[t := Again(n, loop)])
    ensures Contents(h'.Last()) == Contents(s)
  {
    hide IsRun, Contents, Again;
    var last := s.tail;
    h' := LooksAtTail(h, t, n, loop, s);
    h' := Walks(h', Step(t), s, CheckTail(n, loop, last, To(succ)), Silent, HelpTail(n, loop, last, succ));
    h' := Walks(h', Step(t), s, HelpTail(n, loop, last, succ), Swings(succ), Again(n, loop));
  }

  /** The bounded store gives up and frees its node. */
  lemma GivesUp<V>(h: Story<V>, t: nat, n: nat) returns (h': Story<V>)
    requires h.Runs() && t in h.Last().pc && h.Last().pc[t] == Discard(n)
    ensures h'.Runs() && Contents(h'.Last()) == Contents(h.Last())
    ensures h'.Last() == h.Last().(nodes := h.Last().nodes - {n}, pc := h.Last().pc[t := Done(GaveUp)])
  {
    hide IsRun, Contents;
    var s := h.Last();
    Same(s, t);
    h' := Walks(h, Step(t), s, Discard(n), Frees(n), Done(GaveUp));
  }

  lemma CountsSend<V>(h: Story<V>, t: nat) returns (h': Story<V>)
    requires h.Runs() && t in h.Last().pc && h.Last().pc[t] == CountSend
    ensures h'.Runs() && h'.Last() == h.Last().(size := h.Last().size + 1, pc := h.Last().pc[t := Done(Sent)])
    ensures Contents(h'.Last()) == Contents(h.Last())
  {
    hide IsRun, Contents;
    var s := h.Last();
    Same(s, t);
    h' := Walks(h, Step(t), s, CountSend, Counts(1), Done(Sent));
  }

  /** The loads of a pass of TryPopOnce. */
  lemma LooksAtPointers<V>(h: Story<V>, t: nat, once: bool, s: State<V>) returns (h': Story<V>)
    requires h.Runs() && t in s.pc && h.Last() == s.(pc := s.pc[t := LoadHead(once)])
    ensures h'.Runs() && h'.Last() == s.(pc := s.pc[t := LoadSecond(once, s.head, s.tail)])
    ensures h'.labels == h.labels + [Step(t), Step(t)]
  {
    hide IsRun, Contents, FifoStep;
    var first, last := s.head, s.tail;
    h' := Walks(h, Step(t), s, LoadHead(once), Silent, LoadLast(once, first));
    h' := Walks(h', Step(t), s, LoadLast(once, first), Silent, LoadSecond(once, first, last));
  }

  lemma LooksAtHead<V>(h: Story<V>, t: nat, once: bool, s: State<V>) returns (h': Story<V>)
    requires h.Runs() && t in s.pc && h.Last() == s.(pc := s.pc[t := LoadHead(once)])
    ensures h'.Runs() && h'.Last() == s.(pc := s.pc[t := CheckHead(once, s.head, s.tail, NextAt(s, s.head))])
    ensures h'.labels == h.labels + [Step(t), Step(t), Step(t)]
  {
    hide IsRun, Contents, FifoStep;
    h' := LooksAtPointers(h, t, once, s);
    h' := Walks(h', Step(t), s, LoadSecond(once, s.head, s.tail), Silent,
                CheckHead(once, s.head, s.tail, NextAt(s, s.head)));
  }

  /** The labels of n passes on an empty list. */
  function Laps<V>(t: nat, n: nat): seq<Label<V>> { seq(4 * n, _ => Step(t)) }

  /** A pass on an empty list. */
  lemma FindsNothing<V>(h: Story<V>, t: nat, once: bool, s: State<V>) returns (h': Story<V>)
    requires h.Runs() && t in s.pc && h.Last() == s.(pc := s.pc[t := LoadHead(once)])
    requires s.head == s.tail && NextAt(s, s.head).Null?
    ensures h'.Runs() && h'.Last() == s.(pc := s.pc[t := PopAgain(once)])
    ensures Contents(h'.Last()) == Contents(s) && h'.labels == h.labels + Laps(t, 1)
  {
    hide IsRun, Contents, FifoStep, PopAgain;
    h' := LooksAtHead(h, t, once, s);
    h' := Walks(h', Step(t), s, CheckHead(once, s.head, s.tail, Null), Silent, PopAgain(once));
    SameContents(h'.Last(), s);
  }

  /** A pass that helps the tail off the head. */
  lemma HelpsHead<V>(h: Story<V>, t: nat, once: bool, s: State<V>, succ: nat) returns (h': Story<V>)
    requires h.Runs() && t in s.pc && h.Last() == s.(pc := s.pc[t := LoadHead(once)])
    requires s.head == s.tail && NextAt(s, s.head) == To(succ)
    ensures h'.Runs() && h'.Last() == s.(tail := succ, pc := s.pc[t := PopAgain(once)])
    ensures Contents(h'.Last()) == Contents(s)
  {
    hide IsRun, Contents, PopAgain;
    var last := s.tail;
    h' := LooksAtHead(h, t, once, s);
    h' := Walks(h', Step(t), s, CheckHead(once, last, last, To(succ)), Silent, HelpPop(once, last, succ));
    h' := Walks(h', Step(t), s, HelpPop(once, last, succ), Swings(succ), PopAgain(once));
  }

  lemma ReachesCas<V>(h: Story<V>, t: nat, once: bool, s: State<V>, succ: nat) returns (h': Story<V>)
    requires h.Runs() && t in s.pc && h.Last() == s.(pc := s.pc[t := LoadHead(once)])
    requires s.head != s.tail && NextAt(s, s.head) == To(succ)
    ensures h'.Runs() && h'.Last() == s.(pc := s.pc[t := CasHead(once, s.head, succ)])
  {
    hide IsRun, Contents, FifoStep;
    h' := LooksAtHead(h, t, once, s);
    h' := Walks(h', Step(t), s, CheckHead(once, s.head, s.tail, To(succ)), Silent, CasHead(once, s.head, succ));
  }

  /** A pass whose compare-and-swap of the head fails without cause. */
  lemma MissesHead<V>(h: Story<V>, t: nat, once: bool, s: State<V>, succ: nat) returns (h': Story<V>)
    requires h.Runs() && t in s.pc && h.Last() == s.(pc := s.pc[t := LoadHead(once)])
    requires s.head != s.tail && NextAt(s, s.head) == To(succ)
    ensures h'.Runs() && h'.Last() == s.(pc := s.pc[t := PopAgain(once)])
    ensures Contents(h'.Last()) == Contents(s)
  {
    hide IsRun, Contents, FifoStep, PopAgain;
    h' := ReachesCas(h, t, once, s, succ);
    h' := Walks(h', WeakFail(t), s, CasHead(once, s.head, succ), Silent, PopAgain(once));
    SameContents(h'.Last(), s);
  }

  /** A pass that unlinks the dummy and takes the message. */
  lemma UnlinksFront<V>(h: Story<V>, t: nat, once: bool, s: State<V>, succ: nat) returns (h': Story<V>)
    requires h.Runs() && t in s.pc && h.Last() == s.(pc := s.pc[t := LoadHead(once)])
    requires s.head != s.tail && NextAt(s, s.head) == To(succ)
    ensures h'.Runs() && Contents(s) != [] && Contents(h'.Last()) == Contents(s)[1..]
    ensures succ in s.nodes && s.nodes[succ].value == Contents(s)[0]
    ensures h'.Last() == s.(head := succ, pc := s.pc[t := Take(s.head, succ)])
  {
    hide IsRun, Contents;
    h' := ReachesCas(h, t, once, s, succ);
    h' := Walks(h', Step(t), s, CasHead(once, s.head, succ), Unlinks(s.head, succ), Take(s.head, succ));
  }

  lemma RetiresNode<V>(h: Story<V>, t: nat, first: nat, succ: nat) returns (h': Story<V>)
    requires h.Runs() && t in h.Last().pc && h.Last().pc[t] == Take(first, succ) && succ in h.Last().nodes
    ensures h'.Runs() && Contents(h'.Last()) == Contents(h.Last())
    ensures h'.Last() == h.Last().(retired := h.Last().retired + [first],
                                   pc := h.Last().pc[t := CountRead(h.Last().nodes[succ].value)])
  {
    hide IsRun, Contents;
    var s, v := h.Last(), h.Last().nodes[succ].value;
    Same(s, t);
    h' := Walks(h, Step(t), s, Take(first, succ), Silent, Retire(first, v));
    h' := Walks(h', Step(t), s, Retire(first, v), Retires(first), CountRead(v));
  }

  lemma CountsRead<V>(h: Story<V>, t: nat, v: V) returns (h': Story<V>)
    requires h.Runs() && t in h.Last().pc && h.Last().pc[t] == CountRead(v)
    ensures h'.Runs() && h'.Last() == h.Last().(size := h.Last().size - 1, pc := h.Last().pc[t := Done(Got(v))])
    ensures Contents(h'.Last()) == Contents(h.Last())
  {
    hide IsRun, Contents;
    var s := h.Last();
    Same(s, t);
    h' := Walks(h, Step(t), s, CountRead(v), Counts(-1), Done(Got(v)));
  }

  /** TrySyncAndOverflowPrework, run alone. */
  lemma TriesToSend<V>(h: Story<V>, t: nat, v: V, loop: Loop, op: Op<V>) returns (h': Story<V>)
    requires h.Runs() && t in h.Last().pc && h.Last().pc[t].Done? && Start(op) == TrySendClosed(v, loop)
    ensures h'.Runs() && h'.Last() == h.Last().(pc := h.Last().pc[t :=
              if !h.Last().closed && SizeT(h.Last().size) < h.Last().capacity then Allocate(v, loop)
              else Done(Refused)])
    ensures Contents(h'.Last()) == Contents(h.Last())
  {
    hide IsRun, Contents, FifoStep, SizeT;
    var s := h.Last();
    Same(s, t);
    h' := Walks(h, Begin(t, op), s, s.pc[t], Silent, TrySendClosed(v, loop));
    if s.closed {
      h' := Walks(h', Step(t), s, TrySendClosed(v, loop), Silent, Done(Refused));
    } else {
      h' := Walks(h', Step(t), s, TrySendClosed(v, loop), Silent, TrySendSize(v, loop));
      var to := if SizeT(s.size) < s.capacity then Allocate(v, loop) else Done(Refused);
      h' := Walks(h', Step(t), s, TrySendSize(v, loop), Silent, to);
    }
    SameContents(h'.Last(), s);
  }

  /** SyncAndOverflowPrework, run alone: a full open queue makes the send wait. */
  lemma AsksToSend<V>(h: Story<V>, t: nat, v: V) returns (h': Story<V>)
    requires h.Runs() && t in h.Last().pc && h.Last().pc[t].Done?
    ensures h'.Runs() && h'.Last() == h.Last().(pc := h.Last().pc[t :=
              if h.Last().closed then Done(ThrewClosed)
              else if SizeT(h.Last().size) < h.Last().capacity then Allocate(v, Forever)
              else SendSize(v)])
    ensures Contents(h'.Last()) == Contents(h.Last())
  {
    hide IsRun, Contents, FifoStep, SizeT;
    var s := h.Last();
    Same(s, t);
    h' := Walks(h, Begin(t, Send(v)), s, s.pc[t], Silent, SendSize(v));
    var room := SizeT(s.size) < s.capacity;
    if room {
      h' := Walks(h', Step(t), s, SendSize(v), Silent, SendRecheck(v, true));
    } else {
      h' := Walks(h', Step(t), s, SendSize(v), Silent, SendClosed(v));
      h' := Walks(h', Step(t), s, SendClosed(v), Silent, if s.closed then SendRecheck(v, false) else SendSize(v));
    }
    if room || s.closed {
      h' := Walks(h', Step(t), s, SendRecheck(v, room), Silent,
                  if s.closed then Done(ThrewClosed) else Allocate(v, Forever));
    }
    SameContents(h'.Last(), s);
  }

  lemma TriesToRead<V>(h: Story<V>, t: nat, once: bool) returns (h': Story<V>)
    requires h.Runs() && t in h.Last().pc && h.Last().pc[t].Done?
    ensures h'.Runs() && h'.Last() == h.Last().(pc := h.Last().pc[t :=
              if SizeT(h.Last().size) > 0 then LoadHead(once) else Done(Nothing)])
    ensures Contents(h'.Last()) == Contents(h.Last())
  {
    hide IsRun, Contents, FifoStep, SizeT;
    var s := h.Last();
    Same(s, t);
    h' := Walks(h, Begin(t, if once then TryDequeue else TryRead), s, s.pc[t], Silent, TryReadSize(once));
    h' := Walks(h', Step(t), s, TryReadSize(once), Silent, if SizeT(s.size) > 0 then LoadHead(once) else Done(Nothing));
    SameContents(h'.Last(), s);
  }

  /** SyncAndUnderflowPrework, run alone: an open queue that counts nothing makes the read wait. */
  lemma AsksToRead<V>(h: Story<V>, t: nat) returns (h': Story<V>)
    requires h.Runs() && t in h.Last().pc && h.Last().pc[t].Done?
    ensures h'.Runs() && h'.Last() == h.Last().(pc := h.Last().pc[t :=
              if SizeT(h.Last().size) > 0 then LoadHead(false)
              else if h.Last().closed then Done(ThrewClosed)
              else ReadSize])
    ensures Contents(h'.Last()) == Contents(h.Last())
  {
    hide IsRun, Contents, FifoStep, SizeT;
    var s := h.Last();
    Same(s, t);
    h' := Walks(h, Begin(t, Read), s, s.pc[t], Silent, ReadSize);
    if SizeT(s.size) > 0 {
      h' := Walks(h', Step(t), s, ReadSize, Silent, ReadRecheckClosed);
    } else {
      h' := Walks(h', Step(t), s, ReadSize, Silent, ReadClosed);
      h' := Walks(h', Step(t), s, ReadClosed, Silent, if s.closed then ReadRecheckClosed else ReadSize);
    }
    if SizeT(s.size) > 0 || s.closed {
      h' := LooksAgain(h', t, s);
    }
    SameContents(h'.Last(), s);
  }

  /** The loads after the wait predicate of a read. */
  lemma LooksAgain<V>(h: Story<V>, t: nat, s: State<V>) returns (h': Story<V>)
    requires h.Runs() && t in s.pc && h.Last() == s.(pc := s.pc[t := ReadRecheckClosed])
    requires SizeT(s.size) > 0 || s.closed
    ensures h'.Runs() && h'.Last() == s.(pc := s.pc[t :=
              if SizeT(s.size) > 0 then LoadHead(false) else Done(ThrewClosed)])
  {
    hide IsRun, Contents, FifoStep, SizeT;
    SizeTIsNatural(s.size);
    h' := Walks(h, Step(t), s, ReadRecheckClosed, Silent, if s.closed then ReadRecheckSize else LoadHead(false));
    if s.closed {
      h' := Walks(h', Step(t), s, ReadRecheckSize, Silent,
                  if SizeT(s.size) == 0 then Done(ThrewClosed) else LoadHead(false));
    }
  }

  lemma SizeTIsNatural(x: int)
    ensures SizeT(x) >= 0
  {
  }
}
