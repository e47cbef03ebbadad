/** What a whole read of the monitor queue pops, and how it ends. */
module MonitorReads {
  import opened Roles
  import opened Monitor
  import opened MonitorInvariant
  import opened MonitorTheorems
  import opened MonitorProgress
  import opened MonitorCalls

  predicate IsRead<V>(op: Op<V>) { op.Read? || op.TryRead? }

  /** Where a read can be when it has popped these values; threw says that its message has thrown. */
  ghost predicate ReadAt<V>(pc: Pc<V>, op: Op<V>, popped: seq<V>, threw: bool) {
    match pc
    case ReadProbe(blocking) => blocking == op.Read? && popped == [] && !threw
    case ReadLock => op.Read? && popped == [] && !threw
    case ReadWait(_) => op.Read? && popped == [] && !threw
    case ReadSleep => op.Read? && popped == [] && !threw
    case ReadWoken => op.Read? && popped == [] && !threw
    case ReadTake(_) => op.Read? && popped == [] && !threw
    case TryReadLock => op.TryRead? && popped == [] && !threw
    case TryReadTest => op.TryRead? && popped == [] && !threw
    case Pop => popped == [] && !threw
    case PopThrew => popped == [] && threw
    case NotifyUnread => popped == [] && threw
    case PopDone(value) => popped == [value] && !threw
    case NotifyRead(value) => popped == [value] && !threw
    case Done(Got(value)) => popped == [value] && !threw
    case Done(ThrewMessage) => popped == [] && threw
    case Done(ThrewClosed) => op.Read? && popped == [] && !threw
    case Done(ThrewDeadlock) => op.Read? && popped == [] && !threw
    case Done(Nothing) => op.TryRead? && popped == [] && !threw
    case Done(ThrewRole) => popped == [] && !threw
    case _ => false
  }

  /** What t pops in steps lo to hi. */
  ghost function PoppedBy<V>(r: seq<State<V>>, ls: seq<Label<V>>, t: nat, lo: nat, hi: nat): seq<V>
    requires lo <= hi <= |ls| < |r|
  {
    if lo == hi then []
    else PoppedBy(r, ls, t, lo, hi - 1) + if ls[hi - 1].t == t then Taken(r[hi - 1], ls[hi - 1]) else []
  }

  lemma BeginsRead<V>(s: State<V>, l: Label<V>)
    requires Enabled(s, l) && l.Begin? && IsRead(l.op)
    ensures l.t in Apply(s, l).pc && ReadAt(Apply(s, l).pc[l.t], l.op, [], false) && Taken(s, l) == []
    ensures Apply(s, l).pc[l.t].Done? <==> Throws(s.config.policy, RoleOf(s.roles, l.t), Consumer)
    ensures Apply(s, l).pc[l.t].Done? ==> Apply(s, l).pc[l.t] == Done(ThrewRole)
  {
    hide Memory;
  }

  /** The read's own step. */
  lemma ReadMoves<V>(s: State<V>, l: Label<V>, op: Op<V>, popped: seq<V>, threw: bool)
    requires IsRead(op) && Enabled(s, l) && !s.pc[l.t].Done? && ReadAt(s.pc[l.t], op, popped, threw)
    requires s.pc[l.t].Pop? ==> s.sh.buffer != []
    ensures ReadAt(Target(s, l), op, popped + Taken(s, l), threw || l.Fail?)
    ensures Target(s, l) != Done(ThrewRole)
  {
    hide Memory, SendTarget, RolesAfter;
    assert popped + [] == popped;
  }

  /** What a read sees in the step that ends it without a message. */
  lemma ReadSees<V>(s: State<V>, l: Label<V>, op: Op<V>, popped: seq<V>, threw: bool)
    requires IsRead(op) && Reserved(s) && Enabled(s, l) && !s.pc[l.t].Done? && ReadAt(s.pc[l.t], op, popped, threw)
    ensures Target(s, l) == Done(ThrewClosed) ==> s.sh.closed && s.sh.used == 0
    ensures Target(s, l) == Done(Nothing) ==> s.sh.used == 0
    ensures Target(s, l) == Done(ThrewDeadlock) ==>
              && s.sh.used == 0 && RoleOf(s.roles, l.t) == Both
              && s.config.category in {SPSC, SPMC} && !s.config.policy.NoException?
  {
    hide Memory, SendTarget, Exclusive;
    if Holding(s.pc[l.t]) { HolderBooks(s, l.t); }
  }

  /** Another thread's step can do no more than wake it. */
  lemma OthersLeaveRead<V>(s: State<V>, l: Label<V>, t: nat, op: Op<V>, popped: seq<V>, threw: bool)
    requires IsRead(op) && Enabled(s, l) && l.t != t && t in s.pc && ReadAt(s.pc[t], op, popped, threw)
             && !s.pc[t].Done?
    ensures t in Apply(s, l).pc && ReadAt(Apply(s, l).pc[t], op, popped, threw) && !Apply(s, l).pc[t].Done?
  {
    hide Memory, Target, RolesAfter;
  }

  lemma {:induction false} ReadPath<V>(r: seq<State<V>>, ls: seq<Label<V>>, i: nat, j: nat, t: nat)
    requires Calling(r, ls, i, j, t) && IsRead(ls[i].op)
    ensures t in r[j].pc && ReadAt(r[j].pc[t], ls[i].op, PoppedBy(r, ls, t, i, j), Threw(ls, i, j, t))
    ensures r[j].pc[t] == Done(ThrewRole) <==>
              j == i + 1 && Throws(r[i].config.policy, RoleOf(r[i].roles, t), Consumer)
    decreases j
  {
    hide Apply, Enabled, ReadAt, Taken, Initial, Target, IsRead, Throws, Threw, Reserved;
    var s, l := r[j - 1], ls[j - 1];
    assert Enabled(s, l) && r[j - 1 + 1] == Apply(s, l);
    ThrewGrows(ls, i, j - 1, t);
    if i == j - 1 {
      BeginsRead(s, l);
      ThrewNot(ls, i, t);
      assert PoppedBy(r, ls, t, i, j) == PoppedBy(r, ls, t, i, i) + [];
    } else {
      ReadPath(r, ls, i, j - 1, t);
      var popped, threw := PoppedBy(r, ls, t, i, j - 1), Threw(ls, i, j - 1, t);
      if l.t == t {
        RunInv(r, ls, j - 1);
        if s.pc[t].Pop? { PopSeesMessage(s, t); }
        MoverMoves(s, l);
        ReadMoves(s, l, ls[i].op, popped, threw);
      } else {
        assert popped + [] == popped;
        OthersLeaveRead(s, l, t, ls[i].op, popped, threw);
      }
    }
  }

  lemma ReadEndsSeeing<V>(r: seq<State<V>>, ls: seq<Label<V>>, i: nat, j: nat, t: nat)
    requires Calling(r, ls, i, j, t) && IsRead(ls[i].op) && t in r[j].pc && r[j].pc[t].Done?
    ensures r[j].pc[t].result == ThrewClosed ==> r[j - 1].sh.closed && r[j - 1].sh.used == 0
    ensures r[j].pc[t].result == Nothing ==> r[j - 1].sh.used == 0
    ensures r[j].pc[t].result == ThrewDeadlock ==>
              && r[j - 1].sh.used == 0 && RoleOf(r[j - 1].roles, t) == Both
              && r[j - 1].config.category in {SPSC, SPMC} && !r[j - 1].config.policy.NoException?
  {
    hide Apply, Initial, Target, ReadAt, Taken, Enabled, Throws, Reserved;
    if i == j - 1 {
      assert Enabled(r[i], ls[i]) && r[i + 1] == Apply(r[i], ls[i]);
      BeginsRead(r[i], ls[i]);
    } else {
      ReadPath(r, ls, i, j - 1, t);
      LastStep(r, ls, i, j, t);
      RunInv(r, ls, j - 1);
      ReadSees(r[j - 1], ls[j - 1], ls[i].op, PoppedBy(r, ls, t, i, j - 1), Threw(ls, i, j - 1, t));
    }
  }

  /** A whole call of Read or TryRead, at any interleaving, whether it slept or not: it returns a message exactly if it
      has popped one, once, and then that one, and has popped nothing otherwise. It throws for its role exactly if that
      changed, and with its message exactly if that threw. Read ends otherwise only by throwing, closed and with nothing
      to take, or for a deadlock, in both roles with nothing to take; TryRead ends otherwise with nothing to take. */
  lemma ReadReturnsWhatItPopped<V>(r: seq<State<V>>, ls: seq<Label<V>>, i: nat, j: nat, t: nat)
    requires Calling(r, ls, i, j, t) && IsRead(ls[i].op)
    ensures t in r[j].pc
    ensures r[j].pc[t] == Done(ThrewRole) <==>
              j == i + 1 && Throws(r[i].config.policy, RoleOf(r[i].roles, t), Consumer)
    ensures r[j].pc[t].Done? ==>
              var answer := r[j].pc[t].result;
              && PoppedBy(r, ls, t, i, j) == (if answer.Got? then [answer.value] else [])
              && (answer == ThrewMessage <==> Threw(ls, i, j, t))
              && (ls[i].op.Read? ==> answer.Got? || answer in {ThrewRole, ThrewDeadlock, ThrewClosed, ThrewMessage})
              && (ls[i].op.TryRead? ==> answer.Got? || answer in {ThrewRole, Nothing, ThrewMessage})
              && (answer == ThrewClosed ==> r[j - 1].sh.closed && r[j - 1].sh.used == 0)
              && (answer == Nothing ==> r[j - 1].sh.used == 0)
              && (answer == ThrewDeadlock ==>
                    && r[j - 1].sh.used == 0 && RoleOf(r[j - 1].roles, t) == Both
                    && r[j - 1].config.category in {SPSC, SPMC} && !r[j - 1].config.policy.NoException?)
  {
    hide IsRun, PoppedBy, Threw, Throws;
    ReadPath(r, ls, i, j, t);
    if r[j].pc[t].Done? { ReadEndsSeeing(r, ls, i, j, t); }
  }

  /** Close wakes the readers for good: awake in a closed queue, a read does not go to sleep again. */
  lemma {:induction false} CloseKeepsReadersAwake<V>(r: seq<State<V>>, ls: seq<Label<V>>, m: nat, j: nat, t: nat)
    requires IsRun(r, ls) && m <= j < |r| && r[m].sh.closed && t in r[m].pc && !r[m].pc[t].ReadSleep?
    ensures t in r[j].pc && !r[j].pc[t].ReadSleep?
    decreases j
  {
    hide Apply, Enabled, Initial;
    if m < j {
      CloseKeepsReadersAwake(r, ls, m, j - 1, t);
      StaysClosed(r, ls, m, j - 1);
      assert Enabled(r[j - 1], ls[j - 1]) && r[j - 1 + 1] == Apply(r[j - 1], ls[j - 1]);
      StaysAwake(r[j - 1], ls[j - 1], t);
    }
  }

  lemma StaysAwake<V>(s: State<V>, l: Label<V>, t: nat)
    requires Enabled(s, l) && s.sh.closed && t in s.pc && !s.pc[t].ReadSleep?
    ensures t in Apply(s, l).pc && !Apply(s, l).pc[t].ReadSleep?
  {
    hide Memory, RolesAfter;
  }
}
