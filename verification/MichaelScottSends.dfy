/** What a whole send of the Michael-Scott queue links, and how it ends. */
module MichaelScottSends {
  import opened Counters
  import opened MichaelScott
  import opened MichaelScottInvariant
  import opened MichaelScottFifo
  import opened MichaelScottSafety
  import opened MichaelScottProgress
  import opened MichaelScottCalls

  predicate IsSend<V>(op: Op<V>) { op.Send? || op.TrySend? || op.TryEnqueue? }

  /** The loop a call runs: only TryEnqueue counts its attempts, and so far as many have failed as it has used up. */
  predicate LoopOf<V>(op: Op<V>, loop: Loop, fails: nat) {
    if op.TryEnqueue? then loop == Attempt(fails) && fails < MAX_ATTEMPTS else loop == Forever
  }

  /** Where a send can be when it has linked these values and so many passes of its loop have failed. */
  ghost predicate SendAt<V>(s: State<V>, pc: Pc<V>, op: Op<V>, linked: seq<V>, fails: nat)
    requires IsSend(op)
  {
    match pc
    case SendSize(w) => op == Send(w) && linked == [] && fails == 0
    case SendClosed(w) => op == Send(w) && linked == [] && fails == 0
    case SendRecheck(w, _) => op == Send(w) && linked == [] && fails == 0
    case TrySendClosed(w, loop) => !op.Send? && op.v == w && LoopOf(op, loop, 0) && linked == [] && fails == 0
    case TrySendSize(w, loop) => !op.Send? && op.v == w && LoopOf(op, loop, 0) && linked == [] && fails == 0
    case Allocate(w, loop) => op.v == w && LoopOf(op, loop, 0) && linked == [] && fails == 0
    case Discard(n) => op.TryEnqueue? && Holds(s, n, op.v) && linked == [] && fails == MAX_ATTEMPTS
    case SwingTail(_, _) => linked == [op.v] && (op.TryEnqueue? ==> fails < MAX_ATTEMPTS)
    case CountSend => linked == [op.v] && (op.TryEnqueue? ==> fails < MAX_ATTEMPTS)
    case Done(Sent) => linked == [op.v] && (op.TryEnqueue? ==> fails < MAX_ATTEMPTS)
    case Done(Refused) => !op.Send? && linked == [] && fails == 0
    case Done(GaveUp) => op.TryEnqueue? && linked == [] && fails == MAX_ATTEMPTS
    case Done(ThrewClosed) => op.Send? && linked == [] && fails == 0
    case _ =>
      && (pc.LoadTail? || pc.LoadNext? || pc.CheckTail? || pc.CasNext? || pc.HelpTail?)
      && LoopOf(op, pc.loop, fails) && Holds(s, pc.n, op.v) && linked == []
  }

  /** The node at p holds v. */
  ghost predicate Holds<V>(s: State<V>, p: nat, v: V) { p in s.nodes && s.nodes[p].value == v }

  /** What t links in steps lo to hi. */
  ghost function LinkedBy<V>(r: seq<State<V>>, ls: seq<Label<V>>, t: nat, lo: nat, hi: nat): seq<V>
    requires IsRun(r, ls) && lo <= hi <= |ls|
  {
    if lo == hi then []
    else
      LinkedBy(r, ls, t, lo, hi - 1) +
      (if ls[hi - 1].Shut? || ls[hi - 1].t != t then [] else SentBy(r[hi - 1], EffectOf(r[hi - 1], ls[hi - 1])))
  }

  lemma BeginsSend<V>(s: State<V>, l: Label<V>)
    requires Enabled(s, l) && l.Begin? && IsSend(l.op)
    ensures l.t in Apply(s, l).pc && SendAt(Apply(s, l), Apply(s, l).pc[l.t], l.op, [], 0)
    ensures SentBy(s, EffectOf(s, l)) == [] && StoreFails(s, l, l.t) == 0
  {
  }

  lemma OwnNodeAllocated<V>(s: State<V>, g: Trail, t: nat)
    requires Inv(s, g) && t in s.pc && FreshNode(s.pc[t]).To?
    ensures FreshNode(s.pc[t]).node in s.nodes
  {
    hide Shape, Sizes, PcOk;
    assert ThreadOwns(s, g, t);
  }

  lemma AllocatesNew<V>(s: State<V>, l: Label<V>)
    requires Enabled(s, l) && EffectOf(s, l).Allocates?
    ensures EffectOf(s, l).p !in s.nodes
  {
  }

  /** No step changes the value in a node that stays allocated. */
  lemma ValuesStay<V>(s: State<V>, l: Label<V>, p: nat, v: V)
    requires Enabled(s, l) && Holds(s, p, v) && p in Apply(s, l).nodes
    ensures Holds(Apply(s, l), p, v)
  {
    hide EffectOf, Target;
    if EffectOf(s, l).Allocates? { AllocatesNew(s, l); }
  }

  /** The send's own step. */
  lemma SendMoves<V>(s: State<V>, l: Label<V>, op: Op<V>, linked: seq<V>, fails: nat)
    requires IsSend(op) && Enabled(s, l) && !l.Shut? && !s.pc[l.t].Done? && SendAt(s, s.pc[l.t], op, linked, fails)
    requires FreshNode(Target(s, l)).To? && !l.Alloc? ==> Holds(Apply(s, l), FreshNode(s.pc[l.t]).node, op.v)
    ensures SendAt(Apply(s, l), Apply(s, l).pc[l.t], op, linked + SentBy(s, EffectOf(s, l)),
                   fails + StoreFails(s, l, l.t))
  {
    hide PopTarget;
  }

  /** What a send sees in the step that ends it. */
  lemma SendSees<V>(s: State<V>, l: Label<V>, op: Op<V>, linked: seq<V>, fails: nat)
    requires IsSend(op) && Enabled(s, l) && !l.Shut? && !s.pc[l.t].Done? && SendAt(s, s.pc[l.t], op, linked, fails)
    ensures Target(s, l) == Done(ThrewClosed) ==> s.closed
    ensures Target(s, l) == Done(Refused) ==> s.closed || SizeT(s.size) >= s.capacity
  {
    hide PopTarget;
  }

  /** Another thread's step, or Close. */
  lemma OthersLeaveSend<V>(s: State<V>, l: Label<V>, t: nat, op: Op<V>, linked: seq<V>, fails: nat)
    requires IsSend(op) && Enabled(s, l) && (l.Shut? || l.t != t) && t in s.pc && SendAt(s, s.pc[t], op, linked, fails)
    requires FreshNode(s.pc[t]).To? ==> Holds(Apply(s, l), FreshNode(s.pc[t]).node, op.v)
    ensures t in Apply(s, l).pc && SendAt(Apply(s, l), Apply(s, l).pc[t], op, linked, fails)
  {
    hide EffectOf, Target, Holds;
    assert Apply(s, l).pc[t] == s.pc[t];
  }

  /** The node that t has not linked yet is still there and holds its message. */
  lemma FreshHolds<V>(s: State<V>, g': Trail, l: Label<V>, t: nat, op: Op<V>, linked: seq<V>, fails: nat)
    requires IsSend(op) && Enabled(s, l) && t in s.pc && SendAt(s, s.pc[t], op, linked, fails) && FreshNode(s.pc[t]).To?
    requires Inv(Apply(s, l), g') && FreshNode(Apply(s, l).pc[t]) == FreshNode(s.pc[t])
    ensures Holds(Apply(s, l), FreshNode(s.pc[t]).node, op.v)
  {
    hide Inv, Apply, Holds, EffectOf;
    SameThreads(s, l);
    OwnNodeAllocated(Apply(s, l), g', t);
    ValuesStay(s, l, FreshNode(s.pc[t]).node, op.v);
  }

  lemma FreshStays<V>(s: State<V>, l: Label<V>)
    requires Enabled(s, l) && !l.Shut? && FreshNode(Target(s, l)).To? && !l.Alloc?
    ensures FreshNode(Target(s, l)) == FreshNode(s.pc[l.t])
  {
  }

  lemma OnlyOwnFails<V>(s: State<V>, l: Label<V>, t: nat)
    requires l.Shut? || l.t != t
    ensures StoreFails(s, l, t) == 0
  {
    hide Enabled;
  }

  lemma SendStep<V>(s: State<V>, g': Trail, l: Label<V>, t: nat, op: Op<V>, linked: seq<V>, fails: nat)
    requires IsSend(op) && Enabled(s, l) && t in s.pc && SendAt(s, s.pc[t], op, linked, fails) && !s.pc[t].Done?
    requires Inv(Apply(s, l), g')
    ensures t in Apply(s, l).pc
    ensures SendAt(Apply(s, l), Apply(s, l).pc[t], op,
                   linked + (if l.Shut? || l.t != t then [] else SentBy(s, EffectOf(s, l))),
                   fails + StoreFails(s, l, t))
  {
    hide Inv, EffectOf, Perform, FreshNode, SendAt, Holds, SentBy, Target, StoreFails, IsSend;
    assert linked + [] == linked;
    if l.Shut? || l.t != t {
      assert Apply(s, l).pc[t] == s.pc[t];
      OnlyOwnFails(s, l, t);
      if FreshNode(s.pc[t]).To? { FreshHolds(s, g', l, t, op, linked, fails); }
      OthersLeaveSend(s, l, t, op, linked, fails);
    } else {
      if FreshNode(Target(s, l)).To? && !l.Alloc? {
        FreshStays(s, l);
        FreshHolds(s, g', l, t, op, linked, fails);
      }
      SendMoves(s, l, op, linked, fails);
    }
  }

  lemma {:induction false} SendPath<V>(r: seq<State<V>>, ls: seq<Label<V>>, i: nat, j: nat, t: nat)
    requires Calling(r, ls, i, j, t) && IsSend(ls[i].op)
    ensures t in r[j].pc
    ensures SendAt(r[j], r[j].pc[t], ls[i].op, LinkedBy(r, ls, t, i, j),
                   Total(r, ls, (s, l) => StoreFails(s, l, t), i, j))
    decreases j
  {
    hide Inv, Apply, Enabled, EffectOf, SendAt, SentBy, Initial, StoreFails, IsSend;
    var s, l := r[j - 1], ls[j - 1];
    assert Enabled(s, l) && r[j - 1 + 1] == Apply(s, l);
    if i == j - 1 {
      BeginsSend(s, l);
      assert LinkedBy(r, ls, t, i, j) == LinkedBy(r, ls, t, i, i) + [];
    } else {
      SendPath(r, ls, i, j - 1, t);
      var g' := AtState(r, ls, j);
      SendStep(s, g', l, t, ls[i].op, LinkedBy(r, ls, t, i, j - 1),
               Total(r, ls, (s, l) => StoreFails(s, l, t), i, j - 1));
    }
  }

  lemma SendEndsSeeing<V>(r: seq<State<V>>, ls: seq<Label<V>>, i: nat, j: nat, t: nat)
    requires Calling(r, ls, i, j, t) && IsSend(ls[i].op) && t in r[j].pc && r[j].pc[t].Done?
    ensures r[j].pc[t].result == ThrewClosed ==> r[j - 1].closed
    ensures r[j].pc[t].result == Refused ==> r[j - 1].closed || SizeT(r[j - 1].size) >= r[j - 1].capacity
  {
    hide Apply, EffectOf, Initial, SizeT, Target, SendAt;
    if i == j - 1 {
      assert Enabled(r[i], ls[i]) && r[i + 1] == Apply(r[i], ls[i]);
      CallIsNotDone(r[i], ls[i]);
    } else {
      SendPath(r, ls, i, j - 1, t);
      LastStep(r, ls, i, j, t);
      SendSees(r[j - 1], ls[j - 1], ls[i].op, LinkedBy(r, ls, t, i, j - 1),
               Total(r, ls, (s, l) => StoreFails(s, l, t), i, j - 1));
    }
  }

  /** A whole call of Send, TrySend or TryEnqueue, at any interleaving: it has linked its own message exactly once
      if it returns that it was sent, and nothing otherwise. Send ends otherwise only by throwing on a closed queue,
      TrySend only refused, closed or without room at that step; TryEnqueue may also give up, after exactly 64 passes
      of its own that failed, and links only if fewer have. */
  lemma SendLinksItsMessage<V>(r: seq<State<V>>, ls: seq<Label<V>>, i: nat, j: nat, t: nat)
    requires Calling(r, ls, i, j, t) && IsSend(ls[i].op)
    ensures t in r[j].pc
    ensures r[j].pc[t].Done? ==>
              var answer := r[j].pc[t].result;
              && LinkedBy(r, ls, t, i, j) == (if answer == Sent then [ls[i].op.v] else [])
              && (ls[i].op.Send? ==> answer in {Sent, ThrewClosed})
              && (ls[i].op.TrySend? ==> answer in {Sent, Refused})
              && (ls[i].op.TryEnqueue? ==> answer in {Sent, Refused, GaveUp})
              && (answer == ThrewClosed ==> r[j - 1].closed)
              && (answer == Refused ==> r[j - 1].closed || SizeT(r[j - 1].size) >= r[j - 1].capacity)
    ensures r[j].pc[t].Done? && ls[i].op.TryEnqueue? ==>
              var fails := Total(r, ls, (s, l) => StoreFails(s, l, t), i, j);
              match r[j].pc[t].result
              case Sent => fails < MAX_ATTEMPTS
              case GaveUp => fails == MAX_ATTEMPTS
              case _ => fails == 0
  {
    hide IsRun, LinkedBy, StoreFails;
    SendPath(r, ls, i, j, t);
    if r[j].pc[t].Done? { SendEndsSeeing(r, ls, i, j, t); }
  }

  /** Where a send that began on a closed queue can be. */
  predicate ShutOut<V>(pc: Pc<V>) {
    || pc.SendSize? || pc.SendClosed? || pc.SendRecheck? || pc.TrySendClosed?
    || (pc.Done? && (pc.result.ThrewClosed? || pc.result.Refused?))
  }

  lemma ClosedBegins<V>(s: State<V>, l: Label<V>)
    requires Enabled(s, l) && s.closed && l.Begin? && IsSend(l.op)
    ensures Apply(s, l).closed && l.t in Apply(s, l).pc && ShutOut(Apply(s, l).pc[l.t])
  {
  }

  lemma ClosedStaysShut<V>(s: State<V>, l: Label<V>, t: nat)
    requires Enabled(s, l) && s.closed && t in s.pc && ShutOut(s.pc[t]) && !s.pc[t].Done?
    ensures Apply(s, l).closed && t in Apply(s, l).pc && ShutOut(Apply(s, l).pc[t])
  {
  }

  lemma {:induction false} ClosedSendPath<V>(r: seq<State<V>>, ls: seq<Label<V>>, i: nat, j: nat, t: nat)
    requires Calling(r, ls, i, j, t) && IsSend(ls[i].op) && r[i].closed
    ensures r[j].closed && t in r[j].pc && ShutOut(r[j].pc[t])
    decreases j
  {
    hide Apply, EffectOf, Initial, ShutOut, Enabled;
    assert Enabled(r[j - 1], ls[j - 1]) && r[j - 1 + 1] == Apply(r[j - 1], ls[j - 1]);
    if i < j - 1 {
      ClosedSendPath(r, ls, i, j - 1, t);
      ClosedStaysShut(r[j - 1], ls[j - 1], t);
    } else {
      ClosedBegins(r[i], ls[i]);
    }
  }

  /** A send that begins on a closed queue is turned away: Send throws, the others are refused. */
  lemma ClosedSend<V>(r: seq<State<V>>, ls: seq<Label<V>>, i: nat, j: nat, t: nat)
    requires Calling(r, ls, i, j, t) && IsSend(ls[i].op) && r[i].closed
    ensures t in r[j].pc && (r[j].pc[t].Done? ==> r[j].pc[t].result == if ls[i].op.Send? then ThrewClosed else Refused)
  {
    hide Calling;
    ClosedSendPath(r, ls, i, j, t);
    SendLinksItsMessage(r, ls, i, j, t);
  }

  /** What t links does not get less. */
  lemma {:induction false} LinkedGrows<V>(r: seq<State<V>>, ls: seq<Label<V>>, t: nat, lo: nat, m: nat, hi: nat)
    requires IsRun(r, ls) && lo <= m <= hi <= |ls|
    ensures |LinkedBy(r, ls, t, lo, m)| <= |LinkedBy(r, ls, t, lo, hi)|
    decreases hi
  {
    hide EffectOf, SentBy, IsRun;
    if m < hi { LinkedGrows(r, ls, t, lo, m, hi - 1); }
  }

  lemma LinksShow<V>(s: State<V>, g: Trail, l: Label<V>)
    requires Inv(s, g) && Enabled(s, l) && EffectOf(s, l).Links?
    ensures SentBy(s, EffectOf(s, l)) != []
  {
    hide Inv, EffectOf, Apply, Contents;
    StepIsFifo(s, g, l);
  }

  /** While t links nothing, the successes it sees are two for each link by somebody else, and one for a link that
      was there before. */
  lemma {:induction false} WinsOfOthers<V>(r: seq<State<V>>, ls: seq<Label<V>>, t: nat, lo: nat, hi: nat)
    requires IsRun(r, ls) && lo <= hi <= |ls| && LinkedBy(r, ls, t, lo, hi) == []
    ensures Total(r, ls, (s, l) => StoreWins(s, l), lo, hi) + TailLag(r[hi])
            == 2 * Total(r, ls, (s, l) => OtherLinks(s, l, t), lo, hi) + TailLag(r[lo])
    decreases hi
  {
    hide Inv, Apply, Enabled, StoreWins, OtherLinks, TailLag, EffectOf, SentBy, Initial;
    if lo < hi {
      LinkedGrows(r, ls, t, lo, hi - 1, hi);
      WinsOfOthers(r, ls, t, lo, hi - 1);
      var s, l := r[hi - 1], ls[hi - 1];
      var g := AtState(r, ls, hi - 1);
      assert Enabled(s, l) && r[hi - 1 + 1] == Apply(s, l);
      if !l.Shut? && l.t == t && EffectOf(s, l).Links? { LinksShow(s, g, l); }
      assert l.Shut? || l.t != t || SentBy(s, EffectOf(s, l)) == [];
      if l.Shut? { ShutLinksNothing(s, l); }
      WinsAreLinks(s, g, l, t);
    }
  }

  lemma ShutLinksNothing<V>(s: State<V>, l: Label<V>)
    requires Enabled(s, l) && l.Shut?
    ensures !EffectOf(s, l).Links?
  {
  }

  /** TryEnqueue gives up only under contention: over the whole call, twice the number of messages that other threads
      linked, the link tail_ lagged behind when it began, and its own spurious failures come to 64. */
  lemma GivingUpNeedsOthers<V>(r: seq<State<V>>, ls: seq<Label<V>>, i: nat, j: nat, t: nat)
    requires Calling(r, ls, i, j, t) && IsSend(ls[i].op) && t in r[j].pc && r[j].pc[t] == Done(GaveUp)
    ensures 2 * Total(r, ls, (s, l) => OtherLinks(s, l, t), i, j) + TailLag(r[i])
            + Total(r, ls, (s, l) => Spurious(s, l, t), i, j) >= MAX_ATTEMPTS
  {
    hide StoreFails, StoreWins, Spurious, OtherLinks, TailLag, Apply, Initial, EffectOf;
    SendLinksItsMessage(r, ls, i, j, t);
    assert Enabled(r[i], ls[i]);
    StoresAreLockFree(r, ls, t, i, j);
    WinsOfOthers(r, ls, t, i, j);
  }
}
