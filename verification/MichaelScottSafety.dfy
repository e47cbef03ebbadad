/** Shape of the Michael-Scott list and ownership of its nodes, stated on memory alone for every state of
    every run. */
module MichaelScottSafety {
  import opened MichaelScott
  import opened MichaelScottInvariant
  import opened MichaelScottFifo
  import Tallies

  lemma AtState<V>(r: seq<State<V>>, ls: seq<Label<V>>, i: nat) returns (g: Trail)
    requires IsRun(r, ls) && i < |r|
    ensures Inv(r[i], g)
  {
    var gs := RunInv(r, ls);
    g := gs[i];
  }

  /** head_ never passes tail_, and tail_ is the last node or the one before it. */
  lemma TailNearEnd<V>(r: seq<State<V>>, ls: seq<Label<V>>, i: nat)
    requires IsRun(r, ls) && i < |r|
    ensures var s := r[i];
            && s.tail in Walk(s.nodes, s.head)
            && 1 <= |Walk(s.nodes, s.tail)| <= 2
            && Walk(s.nodes, s.tail) == Walk(s.nodes, s.head)[|Walk(s.nodes, s.head)| - |Walk(s.nodes, s.tail)|..]
  {
    hide IsRun, Owners, Sizes, PcOk, Contents;
    var g := AtState(r, ls, i);
    ChainIsOrder(r[i], g);
    assert g.order[g.h..][g.k - g.h] == r[i].tail;
  }

  lemma EffectFollowsLinks<V>(s: State<V>, g: Trail, t: nat, e: Effect<V>)
    requires Shape(s, g) && Justified(s, g, t, e)
    ensures Perform(s, e).head != s.head ==> NextAt(s, s.head) == To(Perform(s, e).head)
    ensures Perform(s, e).tail != s.tail ==> NextAt(s, s.tail) == To(Perform(s, e).tail)
  {
    if e.Unlinks? {
      LinkOf(s, g, s.head);
    } else if e.Swings? {
      LinkOf(s, g, s.tail);
    }
  }

  /** head_ and tail_ move forward over one link at a time. */
  lemma PointersFollowLinks<V>(r: seq<State<V>>, ls: seq<Label<V>>, i: nat)
    requires IsRun(r, ls) && i < |ls|
    ensures r[i + 1].head != r[i].head ==> NextAt(r[i], r[i].head) == To(r[i + 1].head)
    ensures r[i + 1].tail != r[i].tail ==> NextAt(r[i], r[i].tail) == To(r[i + 1].tail)
  {
    hide Inv, EffectOf, Target, Perform, Shape, Owners, PcOk, Justified;
    var g := AtState(r, ls, i);
    assert r[i + 1] == Apply(r[i], ls[i]);
    InvParts(r[i], g);
    PcOfMover(r[i], g, ls[i]);
    StepJustified(r[i], g, ls[i]);
    EffectFollowsLinks(r[i], g, Mover(ls[i]), EffectOf(r[i], ls[i]));
  }

  lemma InvParts<V>(s: State<V>, g: Trail)
    requires Inv(s, g)
    ensures Shape(s, g) && Owners(s, g)
  {
    hide Shape, Owners;
  }

  lemma PcOfMover<V>(s: State<V>, g: Trail, l: Label<V>)
    requires Inv(s, g) && Enabled(s, l)
    ensures !l.Shut? ==> PcOk(g, s.pc[l.t])
  {
    hide PcOk, Shape, Owners, Sizes;
  }

  /** The second `next == nullptr` exit of TryPopOnce, after first and last differ, is never reached. */
  lemma SecondNullExitIsDead<V>(r: seq<State<V>>, ls: seq<Label<V>>, i: nat, t: nat)
    requires IsRun(r, ls) && i < |r| && t in r[i].pc && r[i].pc[t].CheckHead?
    ensures r[i].pc[t].next.Null? ==> r[i].pc[t].first == r[i].pc[t].last
  {
    hide Shape, Owners, Sizes, IsRun;
    var g := AtState(r, ls, i);
    assert PcOk(g, r[i].pc[t]);
  }

  /** The address whose contents the thread's next step reads, writes or frees. */
  function Accessed<V>(pc: Pc<V>): Link {
    match pc
    case LoadNext(_, _, last) => To(last)
    case CasNext(_, _, last) => To(last)
    case Discard(n) => To(n)
    case LoadSecond(_, first, _) => To(first)
    case Take(_, succ) => To(succ)
    case _ => Null
  }

  lemma AccessIsAllocated<V>(s: State<V>, g: Trail, t: nat)
    requires Inv(s, g) && t in s.pc && Accessed(s.pc[t]).To?
    ensures Accessed(s.pc[t]).node in s.nodes
  {
    hide Sizes, NextInOrder;
    assert PcOk(g, s.pc[t]) && ThreadOwns(s, g, t);
    if s.pc[t].Take? {
      assert g.order[g.pos[s.pc[t].first] + 1] in s.nodes;
    }
  }

  /** No step touches a node that is not allocated. */
  lemma NoDanglingAccess<V>(r: seq<State<V>>, ls: seq<Label<V>>, i: nat, t: nat)
    requires IsRun(r, ls) && i < |r| && t in r[i].pc && Accessed(r[i].pc[t]).To?
    ensures Accessed(r[i].pc[t]).node in r[i].nodes
  {
    hide IsRun, Inv;
    var g := AtState(r, ls, i);
    AccessIsAllocated(r[i], g, t);
  }

  ghost predicate IsFresh<V>(s: State<V>, p: nat) { exists t :: t in s.pc && FreshNode(s.pc[t]) == To(p) }

  ghost predicate IsListed<V>(s: State<V>, p: nat) { p in Walk(s.nodes, s.head) }

  ghost predicate IsHeld<V>(s: State<V>, p: nat) { exists t :: t in s.pc && HeldNode(s.pc[t]) == To(p) }

  ghost predicate IsRetired<V>(s: State<V>, p: nat) { p in s.retired }

  lemma OwnerDecides<V>(s: State<V>, g: Trail, p: nat)
    requires Shape(s, g) && Owners(s, g) && p in s.nodes
    ensures p in g.owner
    ensures IsFresh(s, p) <==> g.owner[p].Fresh?
    ensures IsListed(s, p) <==> g.owner[p].Listed?
    ensures IsHeld(s, p) <==> g.owner[p].Popped?
    ensures IsRetired(s, p) <==> g.owner[p].Discarded?
  {
    hide Contents, NextInOrder;
    ChainIsOrder(s, g);
    assert OwnerOk(s, g, p);
    assert IsFresh(s, p) ==> g.owner[p].Fresh? by {
      if IsFresh(s, p) {
        var t :| t in s.pc && FreshNode(s.pc[t]) == To(p);
        assert ThreadOwns(s, g, t);
      }
    }
    assert IsHeld(s, p) ==> g.owner[p].Popped? by {
      if IsHeld(s, p) {
        var t :| t in s.pc && HeldNode(s.pc[t]) == To(p);
        assert ThreadOwns(s, g, t);
      }
    }
    assert IsListed(s, p) <==> g.owner[p].Listed? by {
      if IsListed(s, p) {
        var j :| 0 <= j < |g.order[g.h..]| && g.order[g.h..][j] == p;
        assert g.order[g.h + j] == p;
      }
      if g.owner[p].Listed? {
        assert g.order[g.h..][g.pos[p] - g.h] == p;
      }
    }
  }

  lemma QuiescentOrder<V>(s: State<V>, g: Trail)
    requires Inv(s, g) && forall t | t in s.pc :: s.pc[t].Done?
    ensures forall p :: p in s.nodes <==> p in g.order[g.h..] || p in s.retired
    ensures forall p | p in s.retired :: p !in g.order[g.h..]
    ensures forall i, j | 0 <= i < j < |s.retired| :: s.retired[i] != s.retired[j]
  {
    hide Contents, NextInOrder, Sizes, PcOk;
    ChainIsOrder(s, g);
    forall p
      ensures p in s.nodes <==> p in g.order[g.h..] || p in s.retired
      ensures p in s.retired ==> p !in g.order[g.h..]
    {
      WalkIsAllocated(s.nodes, s.head);
      if p in s.nodes {
        OwnerDecides(s, g, p);
      }
    }
  }

  /** When no call is in progress the nodes are those of the list and the retired ones, each once. */
  lemma QuiescentNodes<V>(r: seq<State<V>>, ls: seq<Label<V>>, i: nat)
    requires IsRun(r, ls) && i < |r| && forall t | t in r[i].pc :: r[i].pc[t].Done?
    ensures forall p :: p in r[i].nodes <==> p in Walk(r[i].nodes, r[i].head) || p in r[i].retired
    ensures forall p | p in r[i].retired :: p !in Walk(r[i].nodes, r[i].head)
    ensures forall a, b {:trigger Walk(r[i].nodes, r[i].head)[a], Walk(r[i].nodes, r[i].head)[b]}
              | 0 <= a < b < |Walk(r[i].nodes, r[i].head)| ::
              Walk(r[i].nodes, r[i].head)[a] != Walk(r[i].nodes, r[i].head)[b]
    ensures forall a, b | 0 <= a < b < |r[i].retired| :: r[i].retired[a] != r[i].retired[b]
  {
    hide IsRun, Sizes, PcOk, Contents, Owners, Walk;
    var g := AtState(r, ls, i);
    QuiescentOrder(r[i], g);
    ChainIsOrder(r[i], g);
    DistinctFrom(g, g.h);
  }

  lemma DistinctFrom(g: Trail, h: nat)
    requires Indexed(g) && h <= |g.order|
    ensures forall a, b {:trigger g.order[h..][a], g.order[h..][b]}
              | 0 <= a < b < |g.order[h..]| :: g.order[h..][a] != g.order[h..][b]
  {
    forall a, b | 0 <= a < b < |g.order[h..]| ensures g.order[h..][a] != g.order[h..][b] {
      assert g.order[h..][a] == g.order[h + a] && g.order[h..][b] == g.order[h + b];
    }
  }

  /** Every allocated node is in exactly one of: unpublished, in the list, popped and not yet retired, retired. */
  lemma OneOwner<V>(r: seq<State<V>>, ls: seq<Label<V>>, i: nat, p: nat)
    requires IsRun(r, ls) && i < |r| && p in r[i].nodes
    ensures Tallies.Bit(IsFresh(r[i], p)) + Tallies.Bit(IsListed(r[i], p)) + Tallies.Bit(IsHeld(r[i], p))
            + Tallies.Bit(IsRetired(r[i], p)) == 1
  {
    hide IsFresh, IsListed, IsHeld, IsRetired, Shape, Owners;
    var g := AtState(r, ls, i);
    InvParts(r[i], g);
    OwnerDecides(r[i], g, p);
  }

  /** No two threads own the same node, and no node is retired twice. */
  lemma OwnersDistinct<V>(r: seq<State<V>>, ls: seq<Label<V>>, i: nat)
    requires IsRun(r, ls) && i < |r|
    ensures forall t, u | t in r[i].pc && u in r[i].pc && t != u ::
              && (FreshNode(r[i].pc[t]).To? ==> FreshNode(r[i].pc[t]) != FreshNode(r[i].pc[u]))
              && (HeldNode(r[i].pc[t]).To? ==> HeldNode(r[i].pc[t]) != HeldNode(r[i].pc[u]))
    ensures forall j, k | 0 <= j < k < |r[i].retired| :: r[i].retired[j] != r[i].retired[k]
    ensures forall j | 0 <= j < |r[i].retired| :: r[i].retired[j] in r[i].nodes
  {
    hide Shape, Sizes, PcOk, FreshNode, HeldNode, IsRun, OwnerOk;
    var g := AtState(r, ls, i);
    forall t, u | t in r[i].pc && u in r[i].pc && t != u
      ensures FreshNode(r[i].pc[t]).To? ==> FreshNode(r[i].pc[t]) != FreshNode(r[i].pc[u])
      ensures HeldNode(r[i].pc[t]).To? ==> HeldNode(r[i].pc[t]) != HeldNode(r[i].pc[u])
    {
      assert ThreadOwns(r[i], g, t) && ThreadOwns(r[i], g, u);
    }
  }

  lemma IndexOf<V>(s: State<V>, g: Trail, p: nat) returns (x: nat)
    requires Shape(s, g) && p in Walk(s.nodes, s.head)
    ensures x < |g.order| && g.order[x] == p
  {
    hide Contents, NextInOrder;
    ChainIsOrder(s, g);
    x :| 0 <= x < |g.order[g.h..]| && g.order[g.h..][x] == p;
    x := g.h + x;
  }

  /** A node that was ever in the list stays allocated with its value, and its link never changes once it is
      set: no published node is freed before the destructor, so its address is never handed out again and no
      compare-and-swap can be fooled by a reused one. */
  lemma {:induction false} PublishedStays<V>(r: seq<State<V>>, ls: seq<Label<V>>, m: nat, j: nat, p: nat)
    requires IsRun(r, ls) && m <= j < |r| && p in Walk(r[m].nodes, r[m].head)
    ensures p in r[m].nodes && p in r[j].nodes && r[j].nodes[p].value == r[m].nodes[p].value
    ensures r[m].nodes[p].next.To? ==> r[j].nodes[p].next == r[m].nodes[p].next
    decreases j
  {
    hide Inv, Apply, Enabled, Contents, Walk, Follow, Shape, Owners, Initial, Grows;
    WalkIsAllocated(r[m].nodes, r[m].head);
    if m < j {
      PublishedStays(r, ls, m, j - 1, p);
      var gs := RunInv(r, ls);
      assert Inv(r[m], gs[m]) && Inv(r[j - 1], gs[j - 1]) && Enabled(r[j - 1], ls[j - 1]);
      assert r[j - 1 + 1] == Apply(r[j - 1], ls[j - 1]);
      InvParts(r[m], gs[m]);
      var x := IndexOf(r[m], gs[m], p);
      RunGrows(r, ls, gs, m, j - 1);
      StepKeepsInv(r[j - 1], gs[j - 1], ls[j - 1]);
      assert gs[j - 1].order[x] == p;
    }
  }
}
