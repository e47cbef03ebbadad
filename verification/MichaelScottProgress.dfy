/** The counter current_size_ and the soft capacity bound, and lock-freedom as an amortised count. */
module MichaelScottProgress {
  import opened Counters
  import opened MichaelScott
  import opened MichaelScottInvariant
  import opened MichaelScottFifo
  import opened MichaelScottSafety
  import Tallies

  /** A send past its capacity test that has not linked its node. */
  predicate Admitted<V>(pc: Pc<V>) {
    || (pc.SendRecheck? && pc.admitted) || pc.Allocate? || pc.LoadTail? || pc.LoadNext? || pc.CheckTail?
    || pc.CasNext? || pc.HelpTail? || pc.Discard?
  }

  /** A send between its capacity test and its addition to current_size_. */
  predicate InFlight<V>(pc: Pc<V>) { Admitted(pc) || Uncounted(pc) }

  /** current_size_ is the length of the list, less the sends that linked and have not added yet, plus the
      reads that removed and have not subtracted yet. */
  lemma SizeLaw<V>(r: seq<State<V>>, ls: seq<Label<V>>, i: nat)
    requires IsRun(r, ls) && i < |r|
    ensures r[i].size == |Contents(r[i])| - Tallies.Count(r[i].pc, Uncounted<V>)
            + Tallies.Count(r[i].pc, Unsubtracted<V>)
  {
    hide Shape, Owners, PcOk, IsRun, Contents;
    var g := AtState(r, ls, i);
    ChainIsOrder(r[i], g);
  }

  /** When no call is in progress Size() is the exact number of messages. */
  lemma QuiescentSize<V>(r: seq<State<V>>, ls: seq<Label<V>>, i: nat)
    requires IsRun(r, ls) && i < |r|
    requires forall t | t in r[i].pc :: r[i].pc[t].Done?
    ensures r[i].size == |Contents(r[i])|
  {
    hide IsRun, Contents;
    SizeLaw(r, ls, i);
    Tallies.Zero(r[i].pc, Uncounted<V>);
    Tallies.Zero(r[i].pc, Unsubtracted<V>);
  }

  ghost predicate Bounded<V>(s: State<V>, p: nat) {
    |Contents(s)| + Tallies.Count(s.pc, Admitted<V>) <= s.capacity + p - 1
  }

  /** The size_t test admits only when the mathematical counter is below capacity as well. */
  lemma TestIsSound(size: int, capacity: nat)
    requires size < SIZE_T_RANGE && SizeT(size) < capacity
    ensures size < capacity
  {
  }

  /** A sender goes on past a full queue only when it saw is_closed, which is never reset. */
  ghost predicate WaitsForRoom<V>(s: State<V>) {
    forall t | t in s.pc && s.pc[t].SendRecheck? && !s.pc[t].admitted :: s.closed
  }

  lemma StepWaits<V>(s: State<V>, l: Label<V>)
    requires Enabled(s, l) && WaitsForRoom(s)
    ensures WaitsForRoom(Apply(s, l))
  {
    var s' := Apply(s, l);
    assert s.closed ==> s'.closed by { hide Target; }
    if !l.Shut? {
      assert s'.pc[l.t].SendRecheck? && !s'.pc[l.t].admitted ==> s.closed;
    }
    hide EffectOf, Target;
  }

  lemma {:induction false} RunWaits<V>(r: seq<State<V>>, ls: seq<Label<V>>, i: nat)
    requires IsRun(r, ls) && i < |r|
    ensures WaitsForRoom(r[i])
  {
    hide Apply, Enabled;
    if i > 0 {
      RunWaits(r, ls, i - 1);
      assert Enabled(r[i - 1], ls[i - 1]) && r[i - 1 + 1] == Apply(r[i - 1], ls[i - 1]);
      StepWaits(r[i - 1], ls[i - 1]);
    }
  }

  lemma StepAdmits<V>(s: State<V>, l: Label<V>)
    requires Enabled(s, l) && !l.Shut? && WaitsForRoom(s)
    ensures var e, pc, q := EffectOf(s, l), s.pc[l.t], Target(s, l);
            && (Admitted(q) && !Admitted(pc) ==> SizeT(s.size) < s.capacity && e.Silent?)
            && (e.Links? ==> Admitted(pc) && !Admitted(q))
  {
  }

  lemma StepLength<V>(s: State<V>, g: Trail, l: Label<V>)
    requires Inv(s, g) && Enabled(s, l)
    ensures var e := EffectOf(s, l);
            |Contents(Apply(s, l))| == |Contents(s)| + (if e.Links? then 1 else 0) - (if e.Unlinks? then 1 else 0)
    ensures Apply(s, l).capacity == s.capacity
  {
    hide Inv, Contents, EffectOf, Target;
    StepIsFifo(s, g, l);
  }

  lemma OnePhase<V>(pc: Pc<V>)
    ensures !(Admitted(pc) && Uncounted(pc))
  {
  }

  lemma FlightSplits<V>(s: State<V>)
    ensures Tallies.Count(s.pc, InFlight<V>) == Tallies.Count(s.pc, Admitted<V>) + Tallies.Count(s.pc, Uncounted<V>)
  {
    Tallies.Split(s.pc, InFlight<V>, Admitted<V>, Uncounted<V>);
  }

  /** One step keeps the bound, if the sends in flight after it are at most p. */
  lemma StepBounded<V>(s: State<V>, g: Trail, l: Label<V>, p: nat, q: nat)
    requires Inv(s, g) && Enabled(s, l) && WaitsForRoom(s) && Bounded(s, p) && s.capacity + p + q <= SIZE_T_RANGE
    requires Tallies.Count(s.pc, Unsubtracted<V>) <= q
    requires Tallies.Count(Apply(s, l).pc, InFlight<V>) <= p
    ensures Bounded(Apply(s, l), p)
  {
    hide Contents, Target, Shape, Owners, PcOk, Perform, Admitted, Uncounted, WaitsForRoom;
    StepLength(s, g, l);
    if !l.Shut? {
      var s', to := Apply(s, l), Target(s, l);
      StepAdmits(s, l);
      Tallies.Move(s.pc, l.t, to, Admitted<V>);
      if Admitted(to) && !Admitted(s.pc[l.t]) {
        Tallies.Move(s.pc, l.t, to, Uncounted<V>);
        FlightSplits(s');
        StepPhase(s, l);
        ChainIsOrder(s, g);
        TestIsSound(s.size, s.capacity);
        OnePhase(to);
      }
    }
  }

  /** The soft bound: if at most p sends are in flight and at most q reads are between removing and
      subtracting, the list never holds more than capacity + p - 1 messages. Wrap-around of the size_t
      counter does not break it as long as capacity + p + q fits. */
  lemma {:induction false} SoftCapacity<V>(r: seq<State<V>>, ls: seq<Label<V>>, p: nat, q: nat, i: nat)
    requires IsRun(r, ls) && i < |r| && p >= 1 && r[0].capacity + p + q <= SIZE_T_RANGE
    requires forall j | 0 <= j <= i :: Tallies.Count(r[j].pc, InFlight<V>) <= p
    requires forall j | 0 <= j <= i :: Tallies.Count(r[j].pc, Unsubtracted<V>) <= q
    ensures |Contents(r[i])| + Tallies.Count(r[i].pc, Admitted<V>) <= r[0].capacity + p - 1
    ensures r[i].capacity == r[0].capacity
  {
    hide Inv, Contents, EffectOf, Target, Apply, Enabled, WaitsForRoom, InFlight, Admitted, Unsubtracted;
    var gs := RunInv(r, ls);
    if i == 0 {
      StartsEmpty(r[0]);
      StartsIdle(r[0]);
    } else {
      SoftCapacity(r, ls, p, q, i - 1);
      assert Inv(r[i - 1], gs[i - 1]) && Enabled(r[i - 1], ls[i - 1]) && r[i - 1 + 1] == Apply(r[i - 1], ls[i - 1]);
      StepLength(r[i - 1], gs[i - 1], ls[i - 1]);
      RunWaits(r, ls, i - 1);
      StepBounded(r[i - 1], gs[i - 1], ls[i - 1], p, q);
    }
  }

  lemma StartsIdle<V>(s: State<V>)
    requires Initial(s)
    ensures Tallies.Count(s.pc, Admitted<V>) == 0
  {
    Tallies.Zero(s.pc, Admitted<V>);
  }

  /** Size() shows a value other than the mathematical counter exactly when more sends have linked without
      adding than there are messages present or removed without subtracting. */
  lemma SizeWrapsExactly<V>(r: seq<State<V>>, ls: seq<Label<V>>, i: nat)
    requires IsRun(r, ls) && i < |r| && -SIZE_T_RANGE < r[i].size < SIZE_T_RANGE
    ensures SizeT(r[i].size) != r[i].size <==>
            Tallies.Count(r[i].pc, Uncounted<V>) > |Contents(r[i])| + Tallies.Count(r[i].pc, Unsubtracted<V>)
  {
    hide IsRun, Contents;
    SizeLaw(r, ls, i);
  }

  /** The total of f over steps lo to hi of a run. */
  ghost function Total<V>(r: seq<State<V>>, ls: seq<Label<V>>, f: (State<V>, Label<V>) -> nat, lo: nat, hi: nat): nat
    requires lo <= hi <= |ls| < |r|
  {
    if lo == hi then 0 else Total(r, ls, f, lo, hi - 1) + f(r[hi - 1], ls[hi - 1])
  }

  /** A pass of t's store loop ends here without having linked. */
  function StoreFails<V>(s: State<V>, l: Label<V>, t: nat): nat {
    if !Enabled(s, l) || l.Shut? || l.t != t then 0
    else
      match s.pc[t]
      case CheckTail(_, _, last, _) => if last != s.tail then 1 else 0
      case CasNext(_, _, last) => if l.WeakFail? || !IsLast(s, last) then 1 else 0
      case HelpTail(_, _, _, _) => 1
      case _ => 0
  }

  /** Someone's compare-and-swap of next or tail_ succeeds. */
  function StoreWins<V>(s: State<V>, l: Label<V>): nat {
    if Enabled(s, l) && (EffectOf(s, l).Links? || EffectOf(s, l).Swings?) then 1 else 0
  }

  /** One of t's weak compare-and-swaps fails without cause. */
  function Spurious<V>(s: State<V>, l: Label<V>, t: nat): nat {
    if Enabled(s, l) && l == WeakFail(t) then 1 else 0
  }

  /** What the pass t is in can already blame on someone else's success. */
  function StoreDebt<V>(s: State<V>, pc: Pc<V>): nat {
    match pc
    case LoadNext(_, _, last) => if s.tail != last then 1 else 0
    case CheckTail(_, _, last, next) => if s.tail != last || (next.Null? && !IsLast(s, last)) then 1 else 0
    case CasNext(_, _, last) => if !IsLast(s, last) then 1 else 0
    case HelpTail(_, _, last, _) => if s.tail != last then 1 else 0
    case _ => 0
  }

  /** A pass of t's pop loop ends here without a value and without having found the queue empty. */
  function PopFails<V>(s: State<V>, l: Label<V>, t: nat): nat {
    if !Enabled(s, l) || l.Shut? || l.t != t then 0
    else
      match s.pc[t]
      case CheckHead(_, first, last, next) => if first != s.head || (first != last && next.Null?) then 1 else 0
      case HelpPop(_, _, _) => 1
      case CasHead(_, first, _) => if l.WeakFail? || s.head != first then 1 else 0
      case _ => 0
  }

  /** Someone's compare-and-swap of head_ or tail_ succeeds. */
  function PopWins<V>(s: State<V>, l: Label<V>): nat {
    if Enabled(s, l) && (EffectOf(s, l).Unlinks? || EffectOf(s, l).Swings?) then 1 else 0
  }

  function PopDebt<V>(s: State<V>, pc: Pc<V>): nat {
    match pc
    case LoadLast(_, first) => if s.head != first then 1 else 0
    case LoadSecond(_, first, last) => if s.head != first || (first == last && s.tail != last) then 1 else 0
    case CheckHead(_, first, last, next) =>
      if s.head != first || (first == last && next.To? && s.tail != last) then 1 else 0
    case HelpPop(_, last, _) => if s.tail != last then 1 else 0
    case CasHead(_, first, _) => if s.head != first then 1 else 0
    case _ => 0
  }

  /** The tail a store loaded is a linked node, so it is allocated and only a success changes it. */
  lemma LoadedTailStays<V>(s: State<V>, g: Trail, l: Label<V>, pc: Pc<V>)
    requires Shape(s, g) && Owners(s, g) && Enabled(s, l) && Justified(s, g, Mover(l), EffectOf(s, l))
    requires PcOk(g, pc) && (pc.LoadNext? || pc.CheckTail? || pc.CasNext?)
    ensures pc.last in s.nodes
    ensures IsLast(s, pc.last) && !EffectOf(s, l).Links? ==> IsLast(Apply(s, l), pc.last)
  {
    hide EffectOf, Target, Owners;
    LinkOf(s, g, pc.last);
  }

  lemma OthersPay<V>(s: State<V>, l: Label<V>, pc: Pc<V>)
    requires Enabled(s, l)
    requires pc.CheckTail? || pc.CasNext? ==>
               (IsLast(s, pc.last) && !EffectOf(s, l).Links? ==> IsLast(Apply(s, l), pc.last))
    ensures StoreDebt(Apply(s, l), pc) <= StoreDebt(s, pc) + StoreWins(s, l)
  {
    hide EffectOf, Target, IsLast;
  }

  lemma MoverPays<V>(s: State<V>, l: Label<V>)
    requires Enabled(s, l) && !l.Shut?
    requires var pc := s.pc[l.t]; pc.LoadNext? || pc.CheckTail? || pc.CasNext? ==> pc.last in s.nodes
    ensures StoreFails(s, l, l.t) + StoreDebt(Apply(s, l), Target(s, l))
            <= StoreDebt(s, s.pc[l.t]) + StoreWins(s, l) + Spurious(s, l, l.t)
  {
  }

  /** The potential argument: every failed pass of t is paid for by a success during it or by a spurious failure. */
  lemma StorePays<V>(s: State<V>, g: Trail, l: Label<V>, t: nat)
    requires Inv(s, g) && Enabled(s, l) && t in s.pc
    ensures StoreFails(s, l, t) + StoreDebt(Apply(s, l), Apply(s, l).pc[t])
            <= StoreDebt(s, s.pc[t]) + StoreWins(s, l) + Spurious(s, l, t)
  {
    hide Shape, Owners, Sizes, EffectOf, Target, PcOk, StoreDebt, Justified, StoreWins;
    assert PcOk(g, s.pc[t]);
    PcOfMover(s, g, l);
    StepJustified(s, g, l);
    if s.pc[t].LoadNext? || s.pc[t].CheckTail? || s.pc[t].CasNext? {
      LoadedTailStays(s, g, l, s.pc[t]);
    }
    if !l.Shut? && l.t == t {
      MoverPays(s, l);
    } else {
      OthersPay(s, l, s.pc[t]);
    }
  }

  lemma OthersPayPop<V>(s: State<V>, l: Label<V>, pc: Pc<V>)
    requires Enabled(s, l)
    ensures PopDebt(Apply(s, l), pc) <= PopDebt(s, pc) + PopWins(s, l)
  {
    hide EffectOf, Target;
  }

  lemma MoverPaysPop<V>(s: State<V>, l: Label<V>)
    requires Enabled(s, l) && !l.Shut?
    requires var pc := s.pc[l.t]; pc.CheckHead? && pc.next.Null? ==> pc.first == pc.last
    ensures PopFails(s, l, l.t) + PopDebt(Apply(s, l), Target(s, l))
            <= PopDebt(s, s.pc[l.t]) + PopWins(s, l) + Spurious(s, l, l.t)
  {
  }

  lemma PopPays<V>(s: State<V>, g: Trail, l: Label<V>, t: nat)
    requires Inv(s, g) && Enabled(s, l) && t in s.pc
    ensures PopFails(s, l, t) + PopDebt(Apply(s, l), Apply(s, l).pc[t])
            <= PopDebt(s, s.pc[t]) + PopWins(s, l) + Spurious(s, l, t)
  {
    hide Shape, Owners, Sizes, EffectOf, Target, PopDebt, PopWins;
    if !l.Shut? && l.t == t {
      assert PcOk(g, s.pc[t]);
      MoverPaysPop(s, l);
    } else {
      OthersPayPop(s, l, s.pc[t]);
    }
  }

  /** Lock-freedom of stores: over any stretch of any run, the passes of t's store loop that fail are at most
      the successes of next and tail_ compare-and-swaps by all threads plus t's own spurious failures. A
      stretch that starts outside a pass starts without debt. */
  lemma {:induction false} StoresAreLockFree<V>(r: seq<State<V>>, ls: seq<Label<V>>, t: nat, lo: nat, hi: nat)
    requires IsRun(r, ls) && lo <= hi <= |ls| && t in r[lo].pc
    ensures t in r[hi].pc
    ensures Total(r, ls, (s, l) => StoreFails(s, l, t), lo, hi) + StoreDebt(r[hi], r[hi].pc[t])
            <= StoreDebt(r[lo], r[lo].pc[t]) + Total(r, ls, (s, l) => StoreWins(s, l), lo, hi)
               + Total(r, ls, (s, l) => Spurious(s, l, t), lo, hi)
    decreases hi
  {
    hide Inv, Apply, Enabled, StoreFails, StoreDebt, StoreWins, Spurious;
    if lo < hi {
      StoresAreLockFree(r, ls, t, lo, hi - 1);
      var g := AtState(r, ls, hi - 1);
      assert Enabled(r[hi - 1], ls[hi - 1]) && r[hi - 1 + 1] == Apply(r[hi - 1], ls[hi - 1]);
      SameThreads(r[hi - 1], ls[hi - 1]);
      StorePays(r[hi - 1], g, ls[hi - 1], t);
    }
  }

  /** Lock-freedom of reads: the passes of t's pop loop that fail without having found the queue empty are at
      most the successes of head_ and tail_ compare-and-swaps plus t's own spurious failures. */
  lemma {:induction false} ReadsAreLockFree<V>(r: seq<State<V>>, ls: seq<Label<V>>, t: nat, lo: nat, hi: nat)
    requires IsRun(r, ls) && lo <= hi <= |ls| && t in r[lo].pc
    ensures t in r[hi].pc
    ensures Total(r, ls, (s, l) => PopFails(s, l, t), lo, hi) + PopDebt(r[hi], r[hi].pc[t])
            <= PopDebt(r[lo], r[lo].pc[t]) + Total(r, ls, (s, l) => PopWins(s, l), lo, hi)
               + Total(r, ls, (s, l) => Spurious(s, l, t), lo, hi)
    decreases hi
  {
    hide Inv, Apply, Enabled, PopFails, PopDebt, PopWins, Spurious;
    if lo < hi {
      ReadsAreLockFree(r, ls, t, lo, hi - 1);
      var g := AtState(r, ls, hi - 1);
      assert Enabled(r[hi - 1], ls[hi - 1]) && r[hi - 1 + 1] == Apply(r[hi - 1], ls[hi - 1]);
      SameThreads(r[hi - 1], ls[hi - 1]);
      PopPays(r[hi - 1], g, ls[hi - 1], t);
    }
  }

  /** Attempts a TryStoreInternal call has used up. */
  function Used<V>(pc: Pc<V>): nat {
    match pc
    case LoadTail(_, Attempt(u)) => u
    case LoadNext(_, Attempt(u), _) => u
    case CheckTail(_, Attempt(u), _, _) => u
    case CasNext(_, Attempt(u), _) => u
    case HelpTail(_, Attempt(u), _, _) => u
    case Discard(_) => MAX_ATTEMPTS
    case _ => 0
  }

  predicate Trying<V>(pc: Pc<V>) {
    (pc.LoadTail? || pc.LoadNext? || pc.CheckTail? || pc.CasNext? || pc.HelpTail?)
    && pc.loop.Attempt? && pc.loop.used < MAX_ATTEMPTS
  }

  lemma StepUses<V>(s: State<V>, l: Label<V>, t: nat)
    requires Enabled(s, l) && t in s.pc && Trying(s.pc[t])
    ensures var q := Apply(s, l).pc[t]; Trying(q) || q.Discard? ==> Used(q) == Used(s.pc[t]) + StoreFails(s, l, t)
    ensures var q := Apply(s, l).pc[t]; Trying(q) || q.Discard? || q.SwingTail?
  {
    hide EffectOf;
  }

  lemma {:induction false} UsedIsFails<V>(r: seq<State<V>>, ls: seq<Label<V>>, t: nat, lo: nat, hi: nat)
    requires IsRun(r, ls) && lo <= hi <= |ls| && t in r[lo].pc && Trying(r[lo].pc[t]) && Used(r[lo].pc[t]) == 0
    requires forall m | lo <= m < hi :: t in r[m].pc && Trying(r[m].pc[t])
    ensures t in r[hi].pc
    ensures Trying(r[hi].pc[t]) || r[hi].pc[t].Discard? ==>
              Used(r[hi].pc[t]) == Total(r, ls, (s, l) => StoreFails(s, l, t), lo, hi)
    decreases hi
  {
    hide Apply, Enabled, StoreFails, Used, Trying;
    if lo < hi {
      UsedIsFails(r, ls, t, lo, hi - 1);
      assert Enabled(r[hi - 1], ls[hi - 1]) && r[hi - 1 + 1] == Apply(r[hi - 1], ls[hi - 1]);
      SameThreads(r[hi - 1], ls[hi - 1]);
      StepUses(r[hi - 1], ls[hi - 1], t);
    }
  }

  /** TryEnqueue gives up on an admitted message only if, during the call, next and tail_ compare-and-swaps
      succeeded or its own failed spuriously 64 times in all. */
  lemma GivingUpNeedsContention<V>(r: seq<State<V>>, ls: seq<Label<V>>, t: nat, lo: nat, hi: nat)
    requires IsRun(r, ls) && lo <= hi <= |ls| && t in r[lo].pc && r[lo].pc[t].LoadTail?
             && r[lo].pc[t].loop == Attempt(0)
    requires forall m | lo <= m < hi :: t in r[m].pc && Trying(r[m].pc[t])
    requires t in r[hi].pc && r[hi].pc[t].Discard?
    ensures Total(r, ls, (s, l) => StoreWins(s, l), lo, hi) + Total(r, ls, (s, l) => Spurious(s, l, t), lo, hi)
            >= MAX_ATTEMPTS
  {
    hide IsRun, StoreFails, StoreWins, Spurious;
    StoresAreLockFree(r, ls, t, lo, hi);
    UsedIsFails(r, ls, t, lo, hi);
  }

  /** 1 when a node was linked and tail_ not yet moved over it. */
  function TailLag<V>(s: State<V>): nat { if NextAt(s, s.tail).To? then 1 else 0 }

  /** A thread other than t links a node. */
  function OtherLinks<V>(s: State<V>, l: Label<V>, t: nat): nat {
    if Enabled(s, l) && EffectOf(s, l).Links? && Mover(l) != t then 1 else 0
  }

  /** Every swing of tail_, whoever makes it, is over a link of its own. */
  lemma EffectLag<V>(s: State<V>, g: Trail, t: nat, e: Effect<V>)
    requires Shape(s, g) && Justified(s, g, t, e)
    ensures Tallies.Bit(e.Swings?) + TailLag(Perform(s, e)) == Tallies.Bit(e.Links?) + TailLag(s)
  {
    assert g.order[g.k] == s.tail;
    LinkOf(s, g, s.tail);
    if e.Swings? {
      LinkOf(s, g, e.succ);
    } else if e.Links? {
      LinkOf(s, g, e.last);
    }
  }

  lemma WinsAreLinks<V>(s: State<V>, g: Trail, l: Label<V>, t: nat)
    requires Inv(s, g) && Enabled(s, l) && (EffectOf(s, l).Links? ==> Mover(l) != t)
    ensures StoreWins(s, l) + TailLag(Apply(s, l)) == 2 * OtherLinks(s, l, t) + TailLag(s)
  {
    hide Shape, Owners, Sizes, Target, PcOk, Justified, TailLag;
    PcOfMover(s, g, l);
    StepJustified(s, g, l);
    EffectLag(s, g, Mover(l), EffectOf(s, l));
    OnlyThreadsChange(s, l);
  }

  lemma OnlyThreadsChange<V>(s: State<V>, l: Label<V>)
    requires Enabled(s, l)
    ensures TailLag(Apply(s, l)) == TailLag(Perform(s, EffectOf(s, l)))
  {
    hide EffectOf, Target, Perform;
  }
}
