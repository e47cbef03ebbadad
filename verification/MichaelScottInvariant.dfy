/** Invariants of the Michael-Scott queue, proved for every step of every interleaving. */
module MichaelScottInvariant {
  import opened MichaelScott
  import Tallies

  /** Who is responsible for an allocated node. */
  datatype Owner = Fresh(t: nat) | Listed | Popped(t: nat) | Discarded

  /** What the proof remembers beside the program's memory: every node ever linked, in link order (the dummy
      first), the inverse of that order, the indices of head_ and tail_ in it, and the owner of each node. */
  datatype Trail = Trail(order: seq<nat>, pos: map<nat, nat>, h: nat, k: nat, owner: map<nat, Owner>)

  /** order names each linked node once: pos gives back the index of every node in it. */
  ghost predicate Indexed(g: Trail) {
    forall i {:trigger g.order[i]} | 0 <= i < |g.order| :: g.order[i] in g.pos && g.pos[g.order[i]] == i
  }

  /** p is the linked node with index at most bound. */
  ghost predicate Passed(g: Trail, p: nat, bound: nat) {
    p in g.pos && g.pos[p] <= bound && g.pos[p] < |g.order| && g.order[g.pos[p]] == p
  }

  /** succ was linked right after p. */
  ghost predicate Linked(g: Trail, p: nat, succ: nat)
    requires p in g.pos
  {
    g.pos[p] + 1 < |g.order| && g.order[g.pos[p] + 1] == succ
  }

  ghost function NextInOrder(g: Trail, i: nat): Link {
    if i + 1 < |g.order| then To(g.order[i + 1]) else Null
  }

  /** Memory links the nodes in order. */
  ghost predicate Chained<V>(nodes: map<nat, Node<V>>, g: Trail) {
    && (forall i {:trigger g.order[i]} | 0 <= i < |g.order| :: g.order[i] in nodes)
    && (forall i {:trigger nodes[g.order[i]]} | 0 <= i < |g.order| :: nodes[g.order[i]].next == NextInOrder(g, i))
  }

  /** head_ is at or before tail_, and tail_ is last or second to last. */
  ghost predicate Placed<V>(s: State<V>, g: Trail) {
    && g.h <= g.k < |g.order| <= g.k + 2
    && s.head == g.order[g.h] && s.tail == g.order[g.k]
  }

  ghost predicate Shape<V>(s: State<V>, g: Trail) {
    Indexed(g) && Placed(s, g) && Chained(s.nodes, g)
  }

  /** The node a thread has allocated and not yet linked. */
  function FreshNode<V>(pc: Pc<V>): Link {
    match pc
    case LoadTail(n, _) => To(n)
    case LoadNext(n, _, _) => To(n)
    case CheckTail(n, _, _, _) => To(n)
    case CasNext(n, _, _) => To(n)
    case HelpTail(n, _, _, _) => To(n)
    case Discard(n) => To(n)
    case _ => Null
  }

  /** The old dummy a thread has unlinked and not yet retired. */
  function HeldNode<V>(pc: Pc<V>): Link {
    match pc
    case Take(first, _) => To(first)
    case Retire(first, _) => To(first)
    case _ => Null
  }

  ghost predicate OwnerOk<V>(s: State<V>, g: Trail, p: nat)
    requires p in g.owner && p in s.nodes
  {
    match g.owner[p]
    case Fresh(t) => p !in g.order && s.nodes[p].next.Null? && t in s.pc && FreshNode(s.pc[t]) == To(p)
    case Listed => Passed(g, p, |g.order|) && g.pos[p] >= g.h
    case Popped(t) => Passed(g, p, |g.order|) && g.pos[p] < g.h && t in s.pc && HeldNode(s.pc[t]) == To(p)
    case Discarded => Passed(g, p, |g.order|) && g.pos[p] < g.h && p in s.retired
  }

  ghost predicate ThreadOwns<V>(s: State<V>, g: Trail, t: nat)
    requires t in s.pc
  {
    && (forall p | FreshNode(s.pc[t]) == To(p) :: p in g.owner && g.owner[p] == Fresh(t))
    && (forall p | HeldNode(s.pc[t]) == To(p) :: p in g.owner && g.owner[p] == Popped(t))
  }

  ghost predicate NodesOwned<V>(s: State<V>, g: Trail) {
    && g.owner.Keys == s.nodes.Keys
    && (forall p {:trigger g.owner[p]} | p in g.owner :: OwnerOk(s, g, p))
  }

  ghost predicate RetiredOnce<V>(s: State<V>, g: Trail) {
    && (forall i | 0 <= i < |s.retired| :: s.retired[i] in g.owner && g.owner[s.retired[i]] == Discarded)
    && (forall i, j | 0 <= i < j < |s.retired| :: s.retired[i] != s.retired[j])
  }

  ghost predicate Owners<V>(s: State<V>, g: Trail) {
    NodesOwned(s, g) && RetiredOnce(s, g) && forall t | t in s.pc :: ThreadOwns(s, g, t)
  }

  /** What a thread's locals say about shared memory; true at every later time as well. */
  ghost predicate PcOk<V>(g: Trail, pc: Pc<V>) {
    match pc
    case LoadNext(_, _, last) => Passed(g, last, g.k)
    case CheckTail(_, _, last, next) => Passed(g, last, g.k) && (next.To? ==> Linked(g, last, next.node))
    case CasNext(_, _, last) => Passed(g, last, g.k)
    case HelpTail(_, _, last, succ) => Passed(g, last, g.k) && Linked(g, last, succ)
    case SwingTail(n, last) => Passed(g, last, g.k) && Linked(g, last, n)
    case LoadLast(_, first) => Passed(g, first, g.h)
    case LoadSecond(_, first, last) => Passed(g, first, g.h) && Passed(g, last, g.k) && g.pos[first] <= g.pos[last]
    case CheckHead(_, first, last, next) =>
      && Passed(g, first, g.h) && Passed(g, last, g.k) && g.pos[first] <= g.pos[last]
      && (if next.To? then Linked(g, first, next.node) else first == last)
    case HelpPop(_, last, succ) => Passed(g, last, g.k) && Linked(g, last, succ)
    case CasHead(_, first, succ) => Passed(g, first, g.h) && g.pos[first] + 1 <= g.k && Linked(g, first, succ)
    case Take(first, succ) => Passed(g, first, g.h) && Linked(g, first, succ)
    case _ => true
  }

  /** A send that has linked its node and not yet added to current_size_. */
  predicate Uncounted<V>(pc: Pc<V>) { pc.SwingTail? || pc.CountSend? }

  /** A read that has unlinked a node and not yet subtracted from current_size_. */
  predicate Unsubtracted<V>(pc: Pc<V>) { pc.Take? || pc.Retire? || pc.CountRead? }

  ghost predicate Sizes<V>(s: State<V>, g: Trail) {
    s.size == |g.order| - 1 - g.h - Tallies.Count(s.pc, Uncounted<V>) + Tallies.Count(s.pc, Unsubtracted<V>)
  }

  ghost predicate Inv<V>(s: State<V>, g: Trail) {
    && Shape(s, g)
    && Owners(s, g)
    && (forall t | t in s.pc :: PcOk(g, s.pc[t]))
    && Sizes(s, g)
  }

  /** How the trail follows a step of thread t. */
  ghost function Extend<V>(g: Trail, t: nat, e: Effect<V>): Trail {
    match e
    case Allocates(p, _) => g.(owner := g.owner[p := Fresh(t)])
    case Links(n, _) =>
      g.(order := g.order + [n], pos := g.pos[n := |g.order|], owner := g.owner[n := Listed])
    case Swings(_) => g.(k := g.k + 1)
    case Unlinks(first, _) => g.(h := g.h + 1, owner := g.owner[first := Popped(t)])
    case Retires(first) => g.(owner := g.owner[first := Discarded])
    case Frees(n) => g.(owner := g.owner - {n})
    case _ => g
  }

  function Mover<V>(l: Label<V>): nat { if l.Shut? then 0 else l.t }

  ghost function Follow<V>(s: State<V>, g: Trail, l: Label<V>): Trail
    requires Enabled(s, l)
  {
    Extend(g, Mover(l), EffectOf(s, l))
  }

  ghost predicate Unlinked<V>(s: State<V>, g: Trail, t: nat, n: nat) {
    && n in g.owner && g.owner[n] == Fresh(t)
    && n !in g.order && n in s.nodes && s.nodes[n].next.Null?
  }

  /** What thread t knows when it has the effect. */
  ghost predicate Justified<V>(s: State<V>, g: Trail, t: nat, e: Effect<V>) {
    match e
    case Allocates(p, _) => p !in s.nodes && p !in g.order
    case Links(n, last) => Unlinked(s, g, t, n) && Passed(g, last, g.k) && IsLast(s, last)
    case Swings(succ) => Passed(g, s.tail, g.k) && Linked(g, s.tail, succ)
    case Unlinks(first, succ) =>
      first == s.head && first in s.nodes && Passed(g, first, g.h) && g.pos[first] == g.h < g.k
      && Linked(g, first, succ)
    case Retires(first) => first in g.owner && g.owner[first] == Popped(t)
    case Frees(n) => Unlinked(s, g, t, n)
    case _ => true
  }

  /** What every step leaves standing for the other threads: linked nodes stay allocated with their values,
      a link once set is never changed, and head_ and tail_ only move forward. */
  ghost predicate Grows(g: Trail, g': Trail) {
    && g.h <= g'.h && g.k <= g'.k && |g.order| <= |g'.order|
    && (forall i {:trigger g'.order[i]} | 0 <= i < |g.order| :: g'.order[i] == g.order[i])
    && (forall p {:trigger p in g'.pos} {:trigger g'.pos[p]} | p in g.pos && p in g.order ::
         p in g'.pos && g'.pos[p] == g.pos[p])
  }

  /** A linked node stays allocated, with its value and its link. */
  ghost predicate Keeps<V>(s: State<V>, g: Trail, s': State<V>) {
    forall i {:trigger g.order[i]} | 0 <= i < |g.order| ::
      var p := g.order[i];
      && p in s.nodes && p in s'.nodes && s'.nodes[p].value == s.nodes[p].value
      && (s.nodes[p].next.To? ==> s'.nodes[p].next == s.nodes[p].next)
  }

  lemma StepJustified<V>(s: State<V>, g: Trail, l: Label<V>)
    requires Shape(s, g) && Owners(s, g) && Enabled(s, l) && (!l.Shut? ==> PcOk(g, s.pc[l.t]))
    ensures Justified(s, g, Mover(l), EffectOf(s, l))
  {
    if l.Step? {
      assert ThreadOwns(s, g, l.t);
      if FreshNode(s.pc[l.t]).To? {
        assert OwnerOk(s, g, FreshNode(s.pc[l.t]).node);
      }
    }
  }

  lemma EffectGrows<V>(s: State<V>, g: Trail, t: nat, e: Effect<V>)
    requires Shape(s, g) && Justified(s, g, t, e)
    ensures Grows(g, Extend(g, t, e)) && Keeps(s, g, Perform(s, e))
  {
  }

  lemma LinkShape<V>(s: State<V>, g: Trail, t: nat, e: Effect<V>)
    requires Shape(s, g) && Justified(s, g, t, e) && e.Links?
    ensures Shape(Perform(s, e), Extend(g, t, e))
  {
    assert g.pos[e.last] == |g.order| - 1 by {
      assert s.nodes[g.order[g.pos[e.last]]].next == NextInOrder(g, g.pos[e.last]);
    }
    var s', g' := Perform(s, e), Extend(g, t, e);
    forall i | 0 <= i < |g'.order|
      ensures g'.order[i] in s'.nodes && s'.nodes[g'.order[i]].next == NextInOrder(g', i)
    {
      if i < |g.order| {
        assert s.nodes[g.order[i]].next == NextInOrder(g, i);
        assert i != g.pos[e.last] ==> g.order[i] != e.last;
      }
    }
  }

  lemma EffectShape<V>(s: State<V>, g: Trail, t: nat, e: Effect<V>)
    requires Shape(s, g) && Justified(s, g, t, e)
    ensures Shape(Perform(s, e), Extend(g, t, e))
  {
    if e.Links? {
      LinkShape(s, g, t, e);
    }
  }

  lemma PcStable<V>(g: Trail, g': Trail, pc: Pc<V>)
    requires PcOk(g, pc) && Grows(g, g')
    ensures PcOk(g', pc)
  {
  }

  lemma LinkOf<V>(s: State<V>, g: Trail, p: nat)
    requires Shape(s, g) && Passed(g, p, |g.order|)
    ensures p in s.nodes && s.nodes[p].next == NextInOrder(g, g.pos[p])
  {
    assert s.nodes[g.order[g.pos[p]]].next == NextInOrder(g, g.pos[p]);
  }

  lemma StorerOk<V>(s: State<V>, g: Trail, pc: Pc<V>)
    requires Shape(s, g) && PcOk(g, pc) && InStore(pc) && !(pc.CasNext? && IsLast(s, pc.last))
    ensures PcOk(g, StoreTarget(s, pc))
  {
    if pc.LoadNext? {
      LinkOf(s, g, pc.last);
    }
  }

  lemma PopperOk<V>(s: State<V>, g: Trail, pc: Pc<V>)
    requires Shape(s, g) && PcOk(g, pc) && !(pc.CasHead? && s.head == pc.first)
    ensures PcOk(g, PopTarget(s, pc))
  {
    if pc.LoadSecond? {
      LinkOf(s, g, pc.first);
    }
  }

  lemma LinkerOk<V>(s: State<V>, g: Trail, t: nat, e: Effect<V>)
    requires Shape(s, g) && Justified(s, g, t, e) && e.Links?
    ensures PcOk<V>(Extend(g, t, e), SwingTail(e.n, e.last))
  {
    LinkOf(s, g, e.last);
  }

  lemma UnlinkerOk<V>(s: State<V>, g: Trail, t: nat, e: Effect<V>)
    requires Justified(s, g, t, e) && e.Unlinks?
    ensures PcOk<V>(Extend(g, t, e), Take(e.first, e.succ))
  {
  }

  lemma AdmitOk<V>(s: State<V>, g: Trail, pc: Pc<V>)
    requires InAdmission(pc)
    ensures PcOk(g, AdmitTarget(s, pc))
  {
  }

  lemma StepOk<V>(s: State<V>, g: Trail, l: Label<V>)
    requires Shape(s, g) && Enabled(s, l) && l.Step? && PcOk(g, s.pc[l.t])
    requires !EffectOf(s, l).Links? && !EffectOf(s, l).Unlinks?
    ensures PcOk(g, Target(s, l))
  {
    var pc := s.pc[l.t];
    if InAdmission(pc) {
      AdmitOk(s, g, pc);
    } else if InStore(pc) {
      StorerOk(s, g, pc);
    } else {
      PopperOk(s, g, pc);
    }
  }

  /** Where the two compare-and-swaps that take effect lead. */
  lemma CasTarget<V>(s: State<V>, l: Label<V>)
    requires Enabled(s, l)
    ensures EffectOf(s, l).Links? ==> !l.Shut? && Target(s, l) == SwingTail(EffectOf(s, l).n, EffectOf(s, l).last)
    ensures EffectOf(s, l).Unlinks? ==> !l.Shut? && Target(s, l) == Take(EffectOf(s, l).first, EffectOf(s, l).succ)
  {
  }

  /** The thread that moved knows what its new control state claims. */
  lemma MoverOk<V>(s: State<V>, g: Trail, l: Label<V>)
    requires Shape(s, g) && Enabled(s, l) && !l.Shut? && PcOk(g, s.pc[l.t])
    requires Justified(s, g, l.t, EffectOf(s, l)) && Grows(g, Follow(s, g, l))
    ensures PcOk(Follow(s, g, l), Target(s, l))
  {
    var e := EffectOf(s, l);
    CasTarget(s, l);
    if e.Links? {
      LinkerOk(s, g, l.t, e);
    } else if e.Unlinks? {
      UnlinkerOk(s, g, l.t, e);
    } else {
      if l.Step? {
        StepOk(s, g, l);
      }
      PcStable(g, Follow(s, g, l), Target(s, l));
    }
  }

  lemma StepPcs<V>(s: State<V>, g: Trail, l: Label<V>)
    requires Shape(s, g) && Enabled(s, l) && forall t | t in s.pc :: PcOk(g, s.pc[t])
    requires Justified(s, g, Mover(l), EffectOf(s, l)) && Grows(g, Follow(s, g, l))
    ensures forall t | t in Apply(s, l).pc :: PcOk(Follow(s, g, l), Apply(s, l).pc[t])
  {
    var s', g' := Apply(s, l), Follow(s, g, l);
    forall t | t in s'.pc ensures PcOk(g', s'.pc[t]) {
      if !l.Shut? && t == l.t {
        MoverOk(s, g, l);
      } else {
        PcStable(g, g', s.pc[t]);
      }
    }
  }

  /** A thread is between linking and counting exactly from its Links step to its Counts step. */
  lemma StepPhase<V>(s: State<V>, l: Label<V>)
    requires Enabled(s, l) && !l.Shut?
    ensures var e, pc, q := EffectOf(s, l), s.pc[l.t], Target(s, l);
            && (Uncounted(q) <==> e.Links? || (Uncounted(pc) && e != Counts(1)))
            && (Unsubtracted(q) <==> e.Unlinks? || (Unsubtracted(pc) && e != Counts(-1)))
            && (e.Links? ==> !Uncounted(pc)) && (e.Unlinks? ==> !Unsubtracted(pc))
            && (e.Counts? ==> (e.delta == 1 && Uncounted(pc)) || (e.delta == -1 && Unsubtracted(pc)))
  {
  }

  lemma StepSizes<V>(s: State<V>, g: Trail, l: Label<V>)
    requires Sizes(s, g) && Enabled(s, l)
    ensures Sizes(Apply(s, l), Follow(s, g, l))
  {
    if !l.Shut? {
      var q, e := Target(s, l), EffectOf(s, l);
      StepPhase(s, l);
      assert Apply(s, l).size == s.size + (if e.Counts? then e.delta else 0);
      assert Apply(s, l).pc == s.pc[l.t := q];
      Tallies.Move(s.pc, l.t, q, Uncounted<V>);
      Tallies.Move(s.pc, l.t, q, Unsubtracted<V>);
    }
  }

  /** A thread's unlinked node and held node change exactly with the effects on them. */
  lemma StepHands<V>(s: State<V>, l: Label<V>)
    requires Enabled(s, l) && !l.Shut?
    ensures Hands(EffectOf(s, l), s.pc[l.t], Target(s, l))
  {
  }

  ghost predicate Hands<V>(e: Effect<V>, pc: Pc<V>, q: Pc<V>) {
    && FreshNode(q) == (if e.Allocates? then To(e.p) else if e.Links? || e.Frees? then Null else FreshNode(pc))
    && HeldNode(q) == (if e.Unlinks? then To(e.first) else if e.Retires? then Null else HeldNode(pc))
    && (e.Allocates? ==> FreshNode(pc) == Null)
    && (e.Links? || e.Frees? ==> FreshNode(pc) == To(e.n))
    && (e.Unlinks? ==> HeldNode(pc) == Null)
    && (e.Retires? ==> HeldNode(pc) == To(e.first))
  }

  /** One move of thread t: its effect on memory and its next control state. */
  ghost predicate Moves<V>(s: State<V>, g: Trail, t: nat, e: Effect<V>, s': State<V>) {
    && Placed(s, g) && Justified(s, g, t, e)
    && t in s.pc && t in s'.pc && Hands(e, s.pc[t], s'.pc[t])
    && s' == Perform(s, e).(pc := s.pc[t := s'.pc[t]])
  }

  lemma OwnerMoves<V>(s: State<V>, g: Trail, t: nat, e: Effect<V>, s': State<V>, p: nat)
    requires Moves(s, g, t, e, s')
    requires p in g.owner && p in s.nodes && OwnerOk(s, g, p) && p in Extend(g, t, e).owner
    ensures p in s'.nodes && OwnerOk(s', Extend(g, t, e), p)
  {
  }

  lemma ThreadMoves<V>(s: State<V>, g: Trail, t: nat, e: Effect<V>, s': State<V>, u: nat)
    requires Moves(s, g, t, e, s') && u in s.pc && ThreadOwns(s, g, u)
    requires e.Allocates? ==> e.p !in g.owner
    requires e.Unlinks? ==> e.first in g.owner && OwnerOk(s, g, e.first)
    ensures ThreadOwns(s', Extend(g, t, e), u)
  {
  }

  lemma NodesStayOwned<V>(s: State<V>, g: Trail, t: nat, e: Effect<V>, s': State<V>)
    requires Moves(s, g, t, e, s') && NodesOwned(s, g)
    ensures NodesOwned(s', Extend(g, t, e))
  {
    var g' := Extend(g, t, e);
    forall p | p in g'.owner ensures p in s'.nodes && OwnerOk(s', g', p) {
      if p in g.owner {
        assert OwnerOk(s, g, p);
        OwnerMoves(s, g, t, e, s', p);
      }
    }
  }

  lemma RetiredStayOnce<V>(s: State<V>, g: Trail, t: nat, e: Effect<V>, s': State<V>)
    requires Moves(s, g, t, e, s') && RetiredOnce(s, g)
    requires e.Allocates? ==> e.p !in g.owner
    requires e.Unlinks? ==> e.first in g.owner && g.owner[e.first] != Discarded
    ensures RetiredOnce(s', Extend(g, t, e))
  {
  }

  lemma EffectOwners<V>(s: State<V>, g: Trail, t: nat, e: Effect<V>, s': State<V>)
    requires Moves(s, g, t, e, s') && Owners(s, g)
    requires e.Allocates? ==> e.p !in g.owner
    requires e.Unlinks? ==> e.first in g.owner && OwnerOk(s, g, e.first)
    ensures Owners(s', Extend(g, t, e))
  {
    NodesStayOwned(s, g, t, e, s');
    RetiredStayOnce(s, g, t, e, s');
    forall u | u in s'.pc ensures ThreadOwns(s', Extend(g, t, e), u) {
      ThreadMoves(s, g, t, e, s', u);
    }
  }

  /** Every step of every thread keeps the invariant. */
  lemma StepKeepsInv<V>(s: State<V>, g: Trail, l: Label<V>)
    requires Inv(s, g) && Enabled(s, l)
    ensures Inv(Apply(s, l), Follow(s, g, l))
    ensures Grows(g, Follow(s, g, l)) && Keeps(s, g, Apply(s, l))
  {
    var t, e, s', g' := Mover(l), EffectOf(s, l), Apply(s, l), Follow(s, g, l);
    StepJustified(s, g, l);
    EffectGrows(s, g, t, e);
    EffectShape(s, g, t, e);
    StepPcs(s, g, l);
    StepSizes(s, g, l);
    assert Owners(s', g') by {
      if l.Shut? {
        ShutOwners(s, g, s');
      } else {
        StepHands(s, l);
        assert e.Unlinks? ==> OwnerOk(s, g, e.first);
        EffectOwners(s, g, t, e, s');
      }
    }
    assert Shape(s', g');
  }

  lemma ShutOwners<V>(s: State<V>, g: Trail, s': State<V>)
    requires Owners(s, g) && s' == s.(closed := true)
    ensures Owners(s', g)
  {
    forall p | p in g.owner ensures OwnerOk(s', g, p) {
      assert OwnerOk(s, g, p);
    }
    forall t | t in s'.pc ensures ThreadOwns(s', g, t) {
      assert ThreadOwns(s, g, t);
    }
  }

  lemma InitInv<V>(s: State<V>) returns (g: Trail)
    requires Initial(s)
    ensures Inv(s, g) && g.h == 0 && g.order == [s.head]
  {
    g := Trail([s.head], map[s.head := 0], 0, 0, map[s.head := Listed]);
    Tallies.Zero(s.pc, Uncounted<V>);
    Tallies.Zero(s.pc, Unsubtracted<V>);
  }

  /** A trail for every state of a run, each following the one before. */
  ghost predicate Tracks<V>(r: seq<State<V>>, ls: seq<Label<V>>, gs: seq<Trail>) {
    && IsRun(r, ls)
    && |gs| == |r|
    && (forall i {:trigger gs[i]} | 0 <= i < |r| :: Inv(r[i], gs[i]))
    && (forall i {:trigger ls[i]} | 0 <= i < |ls| :: gs[i + 1] == Follow(r[i], gs[i], ls[i]))
  }

  lemma {:induction false} RunInv<V>(r: seq<State<V>>, ls: seq<Label<V>>) returns (gs: seq<Trail>)
    requires IsRun(r, ls)
    ensures Tracks(r, ls, gs)
  {
    hide Inv, Apply, Follow, Enabled, Initial;
    if ls == [] {
      var g := InitInv(r[0]);
      gs := [g];
    } else {
      var m := |ls| - 1;
      assert IsRun(r[..m + 1], ls[..m]);
      var gs0 := RunInv(r[..m + 1], ls[..m]);
      assert Inv(r[m], gs0[m]) by { assert r[..m + 1][m] == r[m]; }
      StepKeepsInv(r[m], gs0[m], ls[m]);
      gs := gs0 + [Follow(r[m], gs0[m], ls[m])];
      forall i | 0 <= i < |r| ensures Inv(r[i], gs[i]) {
        if i < |gs0| { assert r[..m + 1][i] == r[i]; }
      }
      forall i | 0 <= i < |ls| ensures gs[i + 1] == Follow(r[i], gs[i], ls[i]) {
        if i < m { assert ls[..m][i] == ls[i] && r[..m + 1][i] == r[i]; }
      }
    }
  }

  lemma StepOrder<V>(s: State<V>, g: Trail, l: Label<V>)
    requires Inv(s, g) && Enabled(s, l)
    ensures g.h <= Follow(s, g, l).h && g.order <= Follow(s, g, l).order
  {
    hide Inv, EffectOf;
  }

  /** Along a run, linked nodes keep their indices and head_ only moves forward. */
  lemma {:induction false} RunGrows<V>(r: seq<State<V>>, ls: seq<Label<V>>, gs: seq<Trail>, i: nat, j: nat)
    requires Tracks(r, ls, gs) && i <= j < |r|
    ensures gs[i].h <= gs[j].h && gs[i].order <= gs[j].order
    decreases j
  {
    hide Inv, Apply, Follow, Enabled, Initial;
    if i < j {
      RunGrows(r, ls, gs, i, j - 1);
      assert Inv(r[j - 1], gs[j - 1]) && gs[j - 1 + 1] == Follow(r[j - 1], gs[j - 1], ls[j - 1]);
      StepOrder(r[j - 1], gs[j - 1], ls[j - 1]);
    }
  }
}
