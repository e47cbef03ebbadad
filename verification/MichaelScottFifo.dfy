/** The Michael-Scott queue refines a FIFO queue: what each step does to the list of messages, whose value a
    read returns, and when a read may answer that the queue is empty. */
module MichaelScottFifo {
  import opened MichaelScott
  import opened MichaelScottInvariant

  // Statements speak of the program's memory; the trail of the invariant appears only inside proofs.

  /** Following next from a linked node meets exactly the nodes linked after it. */
  lemma {:induction false} WalkIsOrder<V>(nodes: map<nat, Node<V>>, g: Trail, i: nat)
    requires Indexed(g) && i < |g.order|
    requires forall j | i <= j < |g.order| :: g.order[j] in nodes && nodes[g.order[j]].next == NextInOrder(g, j)
    ensures Walk(nodes, g.order[i]) == g.order[i..]
    decreases |g.order| - i
  {
    if i + 1 < |g.order| {
      var rest := nodes - {g.order[i]};
      forall j | i + 1 <= j < |g.order| ensures g.order[j] in rest && rest[g.order[j]].next == NextInOrder(g, j) {
        assert g.pos[g.order[j]] == j && g.pos[g.order[i]] == i;
      }
      WalkIsOrder(rest, g, i + 1);
    }
    assert nodes[g.order[i]].next == NextInOrder(g, i);
  }

  /** c lists the values of the nodes behind index h of order. */
  ghost predicate Lists<V>(c: seq<V>, nodes: map<nat, Node<V>>, order: seq<nat>, h: nat) {
    && |c| == |order| - 1 - h
    && forall j {:trigger c[j]} | 0 <= j < |c| :: order[h + 1 + j] in nodes && c[j] == nodes[order[h + 1 + j]].value
  }

  lemma ChainIsOrder<V>(s: State<V>, g: Trail)
    requires Shape(s, g)
    ensures Walk(s.nodes, s.head) == g.order[g.h..] && Walk(s.nodes, s.tail) == g.order[g.k..]
    ensures Lists(Contents(s), s.nodes, g.order, g.h)
  {
    forall j | 0 <= j < |g.order| ensures g.order[j] in s.nodes && s.nodes[g.order[j]].next == NextInOrder(g, j) {
      assert g.order[j] in s.nodes;
    }
    WalkIsOrder(s.nodes, g, g.h);
    WalkIsOrder(s.nodes, g, g.k);
  }

  ghost predicate ValuesKept<V>(nodes: map<nat, Node<V>>, nodes': map<nat, Node<V>>, order: seq<nat>) {
    forall i {:trigger order[i]} | 0 <= i < |order| ::
      order[i] in nodes && order[i] in nodes' && nodes'[order[i]].value == nodes[order[i]].value
  }

  /** Two descriptions of one growing order agree on what they share. */
  ghost predicate Follows<V>(c: seq<V>, c': seq<V>, nodes: map<nat, Node<V>>, nodes': map<nat, Node<V>>,
                             order: seq<nat>, order': seq<nat>, h: nat, h': nat) {
    && h <= h' < |order| <= |order'| && |c| == |order| - 1 - h && |c'| == |order'| - 1 - h'
    && c'[..|order| - 1 - h'] == c[h' - h..]
    && (|order| < |order'| ==>
          var p := order'[|order|]; p in nodes' && c'[|order| - 1 - h'] == nodes'[p].value)
    && (h + 1 < |order| ==> var p := order[h + 1]; p in nodes && c[0] == nodes[p].value)
  }

  lemma ListsFollow<V>(c: seq<V>, c': seq<V>, nodes: map<nat, Node<V>>, nodes': map<nat, Node<V>>,
                       order: seq<nat>, order': seq<nat>, h: nat, h': nat)
    requires Lists(c, nodes, order, h) && Lists(c', nodes', order', h')
    requires h <= h' < |order| && order <= order' && ValuesKept(nodes, nodes', order)
    ensures Follows(c, c', nodes, nodes', order, order', h, h')
  {
    forall j | 0 <= j < |order| - 1 - h' ensures c'[j] == c[h' - h + j] {
      assert order'[h' + 1 + j] == order[h' + 1 + j] == order[h + 1 + (h' - h + j)];
    }
    if |order| < |order'| {
      var last := c'[|order| - 1 - h'];
      assert h' + 1 + (|order| - 1 - h') == |order|;
    }
  }

  /** The abstract queue after a step with effect e. */
  ghost predicate FifoStep<V>(s: State<V>, e: Effect<V>, s': State<V>) {
    match e
    case Links(n, _) => n in s.nodes && Contents(s') == Contents(s) + [s.nodes[n].value]
    case Unlinks(_, succ) =>
      && Contents(s) != [] && Contents(s') == Contents(s)[1..]
      && succ in s.nodes && s.nodes[succ].value == Contents(s)[0]
    case _ => Contents(s') == Contents(s)
  }

  /** The messages before and after a change that only extends the order and moves head_ forward. */
  lemma ContentsFollowOrder<V>(s: State<V>, g: Trail, s': State<V>, g': Trail)
    requires Shape(s, g) && Shape(s', g') && Keeps(s, g, s') && g.h <= g'.h < |g.order| && g.order <= g'.order
    ensures Follows(Contents(s), Contents(s'), s.nodes, s'.nodes, g.order, g'.order, g.h, g'.h)
  {
    ChainIsOrder(s, g);
    ChainIsOrder(s', g');
    hide Contents, Shape, Lists, Follows;
    ListsFollow(Contents(s), Contents(s'), s.nodes, s'.nodes, g.order, g'.order, g.h, g'.h);
  }

  lemma OrderIsFifo<V>(s: State<V>, g: Trail, t: nat, e: Effect<V>, s': State<V>)
    requires Shape(s, g) && Justified(s, g, t, e) && Keeps(s, g, s')
    requires Shape(s', Extend(g, t, e)) && s'.nodes == Perform(s, e).nodes
    ensures FifoStep(s, e, s')
  {
    hide Contents, Indexed, Chained, Keeps;
    ContentsFollowOrder(s, g, s', Extend(g, t, e));
  }

  lemma StepIsFifo<V>(s: State<V>, g: Trail, l: Label<V>)
    requires Inv(s, g) && Enabled(s, l)
    ensures FifoStep(s, EffectOf(s, l), Apply(s, l))
  {
    StepKeepsInv(s, g, l);
    StepJustified(s, g, l);
    OrderIsFifo(s, g, Mover(l), EffectOf(s, l), Apply(s, l));
  }

  /** Refinement: in every run the list of messages changes only by an append at a successful
      compare-and-swap of next and by removing the first message at a successful one of head_. */
  lemma RunIsFifo<V>(r: seq<State<V>>, ls: seq<Label<V>>, i: nat)
    requires IsRun(r, ls) && i < |ls|
    ensures FifoStep(r[i], EffectOf(r[i], ls[i]), r[i + 1])
  {
    var gs := RunInv(r, ls);
    assert Inv(r[i], gs[i]);
    StepIsFifo(r[i], gs[i], ls[i]);
  }

  /** The value a step appends to the list, and the value it removes from it. */
  ghost function SentBy<V>(s: State<V>, e: Effect<V>): seq<V> {
    if e.Links? && e.n in s.nodes then [s.nodes[e.n].value] else []
  }

  ghost function ReceivedBy<V>(s: State<V>, e: Effect<V>): seq<V> {
    if e.Unlinks? && e.succ in s.nodes then [s.nodes[e.succ].value] else []
  }

  /** The values sent and received in the first n steps of a run, in the order they took effect. */
  ghost function Sends<V>(r: seq<State<V>>, ls: seq<Label<V>>, n: nat): seq<V>
    requires IsRun(r, ls) && n <= |ls|
  {
    if n == 0 then [] else Sends(r, ls, n - 1) + SentBy(r[n - 1], EffectOf(r[n - 1], ls[n - 1]))
  }

  ghost function Receipts<V>(r: seq<State<V>>, ls: seq<Label<V>>, n: nat): seq<V>
    requires IsRun(r, ls) && n <= |ls|
  {
    if n == 0 then [] else Receipts(r, ls, n - 1) + ReceivedBy(r[n - 1], EffectOf(r[n - 1], ls[n - 1]))
  }

  lemma FifoBalance<V>(s: State<V>, e: Effect<V>, s': State<V>)
    requires FifoStep(s, e, s')
    ensures Contents(s) + SentBy(s, e) == ReceivedBy(s, e) + Contents(s')
  {
  }

  lemma StartsEmpty<V>(s: State<V>)
    requires Initial(s)
    ensures Contents(s) == []
  {
    var g := InitInv(s);
    ChainIsOrder(s, g);
  }

  /** No message is lost, duplicated or reordered: what was sent is what was received plus what is still there. */
  lemma {:induction false} SentIsReceivedPlusContents<V>(r: seq<State<V>>, ls: seq<Label<V>>, n: nat)
    requires IsRun(r, ls) && n <= |ls|
    ensures Sends(r, ls, n) == Receipts(r, ls, n) + Contents(r[n])
  {
    hide Contents, EffectOf, Apply, Enabled, SentBy, ReceivedBy, FifoStep, Inv, Initial;
    if n == 0 {
      StartsEmpty(r[0]);
    } else {
      var s, e := r[n - 1], EffectOf(r[n - 1], ls[n - 1]);
      SentIsReceivedPlusContents(r, ls, n - 1);
      RunIsFifo(r, ls, n - 1);
      FifoBalance(s, e, r[n]);
      calc {
        Sends(r, ls, n);
        Receipts(r, ls, n - 1) + Contents(s) + SentBy(s, e);
        Receipts(r, ls, n - 1) + (Contents(s) + SentBy(s, e));
        Receipts(r, ls, n - 1) + ReceivedBy(s, e) + Contents(r[n]);
      }
    }
  }

  /** The value a thread holds between unlinking a node and returning. */
  ghost function Carried<V>(s: State<V>, pc: Pc<V>): seq<V> {
    match pc
    case Take(_, succ) => if succ in s.nodes then [s.nodes[succ].value] else []
    case Retire(_, value) => [value]
    case CountRead(value) => [value]
    case _ => []
  }

  lemma SameThreads<V>(s: State<V>, l: Label<V>)
    requires Enabled(s, l)
    ensures Apply(s, l).pc.Keys == s.pc.Keys
  {
    hide EffectOf, Target;
  }

  /** The node a thread is about to take from is linked, so it stays as it is. */
  lemma TakenStays<V>(s: State<V>, g: Trail, l: Label<V>, t: nat)
    requires Inv(s, g) && Enabled(s, l) && t in s.pc && s.pc[t].Take?
    ensures var p := s.pc[t].succ;
            p in s.nodes && p in Apply(s, l).nodes && Apply(s, l).nodes[p].value == s.nodes[p].value
  {
    hide Follow, Apply, NextInOrder;
    StepKeepsInv(s, g, l);
    assert PcOk(g, s.pc[t]);
    assert g.order[g.pos[s.pc[t].first] + 1] in s.nodes;
  }

  /** Another step leaves the carried value alone, and the thread's own steps hand it on. */
  lemma CarriedStays<V>(s: State<V>, g: Trail, l: Label<V>, t: nat)
    requires Inv(s, g) && Enabled(s, l) && t in s.pc && Unsubtracted(s.pc[t]) && Unsubtracted(Apply(s, l).pc[t])
    ensures Carried(Apply(s, l), Apply(s, l).pc[t]) == Carried(s, s.pc[t])
  {
    hide Inv, EffectOf;
    if s.pc[t].Take? {
      TakenStays(s, g, l, t);
    }
  }

  lemma OnlyStepsUnlink<V>(s: State<V>, l: Label<V>, t: nat)
    requires Enabled(s, l) && t in s.pc && !Unsubtracted(s.pc[t]) && Unsubtracted(Apply(s, l).pc[t])
    ensures l == Step(t) && EffectOf(s, l).Unlinks?
  {
    hide Perform;
    if !l.Shut? {
      StepPhase(s, l);
    }
  }

  /** Only a removal makes a thread carry a value, and it carries the front of the queue. */
  lemma CarriedFrom<V>(s: State<V>, g: Trail, l: Label<V>, t: nat)
    requires Inv(s, g) && Enabled(s, l) && t in s.pc && !Unsubtracted(s.pc[t]) && Unsubtracted(Apply(s, l).pc[t])
    ensures l == Step(t) && EffectOf(s, l).Unlinks?
    ensures Contents(s) != [] && Carried(Apply(s, l), Apply(s, l).pc[t]) == [Contents(s)[0]]
  {
    hide Inv, Contents, EffectOf, Target;
    StepIsFifo(s, g, l);
    OnlyStepsUnlink(s, l, t);
    CasTarget(s, l);
  }

  /** A read returns the value that its own removal took from the front of the queue. From that removal to
      state j the thread stays inside the one call, so no two returns share a removal. */
  lemma {:induction false} ReadReturnsItsRemoval<V>(r: seq<State<V>>, ls: seq<Label<V>>, j: nat, t: nat)
    returns (i: nat)
    requires IsRun(r, ls) && j < |r| && t in r[j].pc && Unsubtracted(r[j].pc[t])
    ensures i < j && ls[i] == Step(t) && EffectOf(r[i], ls[i]).Unlinks?
    ensures Contents(r[i]) != [] && Carried(r[j], r[j].pc[t]) == [Contents(r[i])[0]]
    ensures forall m | i < m <= j :: t in r[m].pc && Unsubtracted(r[m].pc[t])
  {
    hide Inv, Apply, Target, EffectOf, Contents, Carried, Enabled, Follow;
    assert j > 0;
    var gs := RunInv(r, ls);
    assert Inv(r[j - 1], gs[j - 1]) && Enabled(r[j - 1], ls[j - 1]) && r[j - 1 + 1] == Apply(r[j - 1], ls[j - 1]);
    SameThreads(r[j - 1], ls[j - 1]);
    if Unsubtracted(r[j - 1].pc[t]) {
      i := ReadReturnsItsRemoval(r, ls, j - 1, t);
      CarriedStays(r[j - 1], gs[j - 1], ls[j - 1], t);
    } else {
      CarriedFrom(r[j - 1], gs[j - 1], ls[j - 1], t);
      i := j - 1;
    }
  }

  /** A thread that found no node behind first, and has not looked at head_ again yet. */
  predicate SawEmpty<V>(pc: Pc<V>) { pc.CheckHead? && pc.next.Null? }

  lemma OnlyTheLoadSees<V>(s: State<V>, l: Label<V>, t: nat)
    requires Enabled(s, l) && t in s.pc && !SawEmpty(s.pc[t]) && SawEmpty(Apply(s, l).pc[t])
    ensures l == Step(t) && s.pc[t].LoadSecond? && NextAt(s, s.pc[t].first).Null?
  {
    hide EffectOf;
  }

  lemma NullMeansEmpty<V>(s: State<V>, g: Trail, first: nat)
    requires Shape(s, g) && Passed(g, first, g.h) && NextAt(s, first).Null?
    ensures Contents(s) == [] && s.head == s.tail
  {
    hide Contents;
    LinkOf(s, g, first);
    ChainIsOrder(s, g);
  }

  lemma LoadSecondKnows<V>(s: State<V>, g: Trail, t: nat)
    requires Inv(s, g) && t in s.pc && s.pc[t].LoadSecond?
    ensures Shape(s, g) && Passed(g, s.pc[t].first, g.h)
  {
    hide Shape, Owners, Sizes;
    assert PcOk(g, s.pc[t]);
  }

  /** A read takes the empty exit only if the queue was empty at the moment it loaded the dummy's next; the
      same thread makes no step between that load and the exit. */
  lemma {:induction false} EmptyExitSawEmpty<V>(r: seq<State<V>>, ls: seq<Label<V>>, j: nat, t: nat)
    returns (i: nat)
    requires IsRun(r, ls) && j < |r| && t in r[j].pc && SawEmpty(r[j].pc[t])
    ensures i < j && ls[i] == Step(t) && r[i].pc[t].LoadSecond?
    ensures Contents(r[i]) == [] && r[i].head == r[i].tail
    ensures forall m | i < m <= j :: t in r[m].pc && SawEmpty(r[m].pc[t])
  {
    hide Inv, Apply, Target, EffectOf, Contents, Enabled;
    assert j > 0;
    var gs := RunInv(r, ls);
    assert Inv(r[j - 1], gs[j - 1]) && Enabled(r[j - 1], ls[j - 1]) && r[j - 1 + 1] == Apply(r[j - 1], ls[j - 1]);
    SameThreads(r[j - 1], ls[j - 1]);
    if SawEmpty(r[j - 1].pc[t]) {
      i := EmptyExitSawEmpty(r, ls, j - 1, t);
    } else {
      i := j - 1;
      OnlyTheLoadSees(r[i], ls[i], t);
      LoadSecondKnows(r[i], gs[i], t);
      NullMeansEmpty(r[i], gs[i], r[i].pc[t].first);
    }
  }
}
