/** What a whole send of the monitor queue stores, and how it ends. */
module MonitorSends {
  import opened Roles
  import opened Monitor
  import opened MonitorInvariant
  import opened MonitorTheorems
  import opened MonitorProgress
  import opened MonitorCalls

  predicate IsSend<V>(op: Op<V>) { op.Send? || op.TrySend? }

  /** Where a send can be when it has stored these values; threw says that its message has thrown. */
  ghost predicate SendAt<V>(pc: Pc<V>, op: Op<V>, stored: seq<V>, threw: bool)
    requires IsSend(op)
  {
    match pc
    case SendProbe(w, blocking) => w == op.v && blocking == op.Send? && stored == [] && !threw
    case SendLock(w) => op == Send(w) && stored == [] && !threw
    case SendEnter(w) => op == Send(w) && stored == [] && !threw
    case SendWait(w, _) => op == Send(w) && stored == [] && !threw
    case SendSleep(w) => op == Send(w) && stored == [] && !threw
    case SendWoken(w) => op == Send(w) && stored == [] && !threw
    case SendTake(w, _) => op == Send(w) && stored == [] && !threw
    case TrySendLock(w) => op == TrySend(w) && stored == [] && !threw
    case TrySendTest(w) => op == TrySend(w) && stored == [] && !threw
    case Store(w) => w == op.v && stored == [] && !threw
    case StoreThrew => stored == [] && threw
    case NotifyUnsent => stored == [] && threw
    case StoreDone => stored == [op.v] && !threw
    case NotifySent => stored == [op.v] && !threw
    case Done(Sent) => stored == [op.v] && !threw
    case Done(ThrewMessage) => stored == [] && threw
    case Done(ThrewClosed) => op.Send? && stored == [] && !threw
    case Done(ThrewDeadlock) => op.Send? && stored == [] && !threw
    case Done(Refused) => op.TrySend? && stored == [] && !threw
    case Done(ThrewRole) => stored == [] && !threw
    case _ => false
  }

  /** What t stores in steps lo to hi. */
  ghost function StoredBy<V>(r: seq<State<V>>, ls: seq<Label<V>>, t: nat, lo: nat, hi: nat): seq<V>
    requires lo <= hi <= |ls| < |r|
  {
    if lo == hi then []
    else StoredBy(r, ls, t, lo, hi - 1) + if ls[hi - 1].t == t then Stored(r[hi - 1], ls[hi - 1]) else []
  }

  lemma BeginsSend<V>(s: State<V>, l: Label<V>)
    requires Enabled(s, l) && l.Begin? && IsSend(l.op)
    ensures l.t in Apply(s, l).pc && SendAt(Apply(s, l).pc[l.t], l.op, [], false) && Stored(s, l) == []
    ensures Apply(s, l).pc[l.t].Done? <==> Throws(s.config.policy, RoleOf(s.roles, l.t), Producer)
    ensures Apply(s, l).pc[l.t].Done? ==> Apply(s, l).pc[l.t] == Done(ThrewRole)
  {
    hide Memory;
  }

  /** The send's own step. */
  lemma SendMoves<V>(s: State<V>, l: Label<V>, op: Op<V>, stored: seq<V>, threw: bool)
    requires IsSend(op) && Enabled(s, l) && !s.pc[l.t].Done? && SendAt(s.pc[l.t], op, stored, threw)
    ensures SendAt(Target(s, l), op, stored + Stored(s, l), threw || l.Fail?)
    ensures Target(s, l) != Done(ThrewRole)
  {
    hide Memory, ReadTarget, RolesAfter;
    assert stored + [] == stored;
  }

  /** What a send sees in the step that ends it without a message. */
  lemma SendSees<V>(s: State<V>, l: Label<V>, op: Op<V>, stored: seq<V>, threw: bool)
    requires IsSend(op) && Enabled(s, l) && !s.pc[l.t].Done? && SendAt(s.pc[l.t], op, stored, threw)
    ensures Target(s, l) == Done(ThrewClosed) ==> s.sh.closed
    ensures Target(s, l) == Done(Refused) ==> s.sh.closed || s.sh.free == 0
    ensures Target(s, l) == Done(ThrewDeadlock) ==>
              && s.sh.free == 0 && RoleOf(s.roles, l.t) == Both
              && s.config.category in {SPSC, MPSC} && !s.config.policy.NoException?
  {
    hide Memory, ReadTarget;
  }

  /** Another thread's step can do no more than wake it. */
  lemma OthersLeaveSend<V>(s: State<V>, l: Label<V>, t: nat, op: Op<V>, stored: seq<V>, threw: bool)
    requires IsSend(op) && Enabled(s, l) && l.t != t && t in s.pc && SendAt(s.pc[t], op, stored, threw)
             && !s.pc[t].Done?
    ensures t in Apply(s, l).pc && SendAt(Apply(s, l).pc[t], op, stored, threw) && !Apply(s, l).pc[t].Done?
  {
    hide Memory, Target, RolesAfter;
  }

  lemma {:induction false} SendPath<V>(r: seq<State<V>>, ls: seq<Label<V>>, i: nat, j: nat, t: nat)
    requires Calling(r, ls, i, j, t) && IsSend(ls[i].op)
    ensures t in r[j].pc && SendAt(r[j].pc[t], ls[i].op, StoredBy(r, ls, t, i, j), Threw(ls, i, j, t))
    ensures r[j].pc[t] == Done(ThrewRole) <==>
              j == i + 1 && Throws(r[i].config.policy, RoleOf(r[i].roles, t), Producer)
    decreases j
  {
    hide Apply, Enabled, SendAt, Stored, Initial, Target, IsSend, Throws, Threw;
    var s, l := r[j - 1], ls[j - 1];
    assert Enabled(s, l) && r[j - 1 + 1] == Apply(s, l);
    ThrewGrows(ls, i, j - 1, t);
    if i == j - 1 {
      BeginsSend(s, l);
      ThrewNot(ls, i, t);
      assert StoredBy(r, ls, t, i, j) == StoredBy(r, ls, t, i, i) + [];
    } else {
      SendPath(r, ls, i, j - 1, t);
      var stored, threw := StoredBy(r, ls, t, i, j - 1), Threw(ls, i, j - 1, t);
      if l.t == t {
        MoverMoves(s, l);
        SendMoves(s, l, ls[i].op, stored, threw);
      } else {
        assert stored + [] == stored;
        OthersLeaveSend(s, l, t, ls[i].op, stored, threw);
      }
    }
  }

  lemma SendEndsSeeing<V>(r: seq<State<V>>, ls: seq<Label<V>>, i: nat, j: nat, t: nat)
    requires Calling(r, ls, i, j, t) && IsSend(ls[i].op) && t in r[j].pc && r[j].pc[t].Done?
    ensures r[j].pc[t].result == ThrewClosed ==> r[j - 1].sh.closed
    ensures r[j].pc[t].result == Refused ==> r[j - 1].sh.closed || r[j - 1].sh.free == 0
    ensures r[j].pc[t].result == ThrewDeadlock ==>
              && r[j - 1].sh.free == 0 && RoleOf(r[j - 1].roles, t) == Both
              && r[j - 1].config.category in {SPSC, MPSC} && !r[j - 1].config.policy.NoException?
  {
    hide Apply, Initial, Target, SendAt, Stored, Enabled, Throws;
    if i == j - 1 {
      assert Enabled(r[i], ls[i]) && r[i + 1] == Apply(r[i], ls[i]);
      BeginsSend(r[i], ls[i]);
    } else {
      SendPath(r, ls, i, j - 1, t);
      LastStep(r, ls, i, j, t);
      SendSees(r[j - 1], ls[j - 1], ls[i].op, StoredBy(r, ls, t, i, j - 1), Threw(ls, i, j - 1, t));
    }
  }

  /** A whole call of Send or TrySend, at any interleaving, whether it slept or not: it has stored its own message
      exactly once if it returns that it was sent, and nothing otherwise. It throws for its role exactly if that
      changed, and with its message exactly if that threw. Send ends otherwise only by throwing, on a closed queue or
      for a deadlock, in both roles without a free slot; TrySend ends otherwise refused, closed or without a free
      slot. */
  lemma SendStoresItsMessage<V>(r: seq<State<V>>, ls: seq<Label<V>>, i: nat, j: nat, t: nat)
    requires Calling(r, ls, i, j, t) && IsSend(ls[i].op)
    ensures t in r[j].pc
    ensures r[j].pc[t] == Done(ThrewRole) <==>
              j == i + 1 && Throws(r[i].config.policy, RoleOf(r[i].roles, t), Producer)
    ensures r[j].pc[t].Done? ==>
              var answer := r[j].pc[t].result;
              && StoredBy(r, ls, t, i, j) == (if answer == Sent then [ls[i].op.v] else [])
              && (answer == ThrewMessage <==> Threw(ls, i, j, t))
              && (ls[i].op.Send? ==> answer in {Sent, ThrewRole, ThrewDeadlock, ThrewClosed, ThrewMessage})
              && (ls[i].op.TrySend? ==> answer in {Sent, ThrewRole, Refused, ThrewMessage})
              && (answer == ThrewClosed ==> r[j - 1].sh.closed)
              && (answer == Refused ==> r[j - 1].sh.closed || r[j - 1].sh.free == 0)
              && (answer == ThrewDeadlock ==>
                    && r[j - 1].sh.free == 0 && RoleOf(r[j - 1].roles, t) == Both
                    && r[j - 1].config.category in {SPSC, MPSC} && !r[j - 1].config.policy.NoException?)
  {
    hide IsRun, StoredBy, Threw, Throws;
    SendPath(r, ls, i, j, t);
    if r[j].pc[t].Done? { SendEndsSeeing(r, ls, i, j, t); }
  }

  /** Where a send past its probe can be once the queue is closed. */
  predicate ShutOut<V>(pc: Pc<V>, blocking: bool) {
    if blocking
    then
      || pc.SendLock? || pc.SendEnter? || pc.SendSleep? || pc.SendWoken? || pc.SendWait? || pc.SendTake?
      || (pc.Done? && pc.result.ThrewClosed?)
    else pc.TrySendLock? || pc.TrySendTest? || (pc.Done? && pc.result.Refused?)
  }

  lemma ShutOutStays<V>(s: State<V>, l: Label<V>, t: nat, blocking: bool)
    requires Enabled(s, l) && s.sh.closed && t in s.pc && ShutOut(s.pc[t], blocking) && !s.pc[t].Done?
    ensures t in Apply(s, l).pc && ShutOut(Apply(s, l).pc[t], blocking)
    ensures !s.pc[t].SendSleep? ==> !Apply(s, l).pc[t].SendSleep?
  {
    hide Memory, ReadTarget, RolesAfter;
  }

  /** A Send that is asleep, or anywhere else between its probe and its reservation, when the queue is closed throws if
      it ends, and a TrySend there is refused; awake, it does not go to sleep again. */
  lemma {:induction false} CloseTurnsSendsAway<V>(r: seq<State<V>>, ls: seq<Label<V>>, m: nat, j: nat, t: nat,
                                                  blocking: bool)
    requires IsRun(r, ls) && m <= j < |r| && r[m].sh.closed && t in r[m].pc && ShutOut(r[m].pc[t], blocking)
    requires forall x | m <= x < j :: t in r[x].pc ==> !r[x].pc[t].Done?
    ensures t in r[j].pc && ShutOut(r[j].pc[t], blocking)
    ensures r[j].pc[t].Done? ==> r[j].pc[t].result == if blocking then ThrewClosed else Refused
    ensures !r[m].pc[t].SendSleep? ==> !r[j].pc[t].SendSleep?
    decreases j
  {
    hide Apply, Enabled, Initial, ShutOut;
    if m < j {
      CloseTurnsSendsAway(r, ls, m, j - 1, t, blocking);
      StaysClosed(r, ls, m, j - 1);
      assert Enabled(r[j - 1], ls[j - 1]) && r[j - 1 + 1] == Apply(r[j - 1], ls[j - 1]);
      ShutOutStays(r[j - 1], ls[j - 1], t, blocking);
    }
    ShutOutEnds(r[j].pc[t], blocking);
  }

  lemma ShutOutEnds<V>(pc: Pc<V>, blocking: bool)
    requires ShutOut(pc, blocking)
    ensures pc.Done? ==> pc.result == if blocking then ThrewClosed else Refused
  {
  }
}
