/** Whole calls on a closed monitor queue. */
module MonitorClosed {
  import opened Roles
  import opened Monitor
  import opened MonitorInvariant
  import opened MonitorProgress
  import opened MonitorTheorems

  /** Where a call begun on a closed queue can be. It never sleeps, and nothing is stored. */
  ghost predicate ClosedPath<V>(op: Op<V>, pc: Pc<V>) {
    match op
    case Send(v) =>
      || pc in {SendProbe(v, true), SendLock(v), SendEnter(v)}
      || (pc.Done? && pc.result in {ThrewRole, ThrewDeadlock, ThrewClosed})
    case TrySend(v) =>
      || pc in {SendProbe(v, false), TrySendLock(v), TrySendTest(v)}
      || (pc.Done? && pc.result in {ThrewRole, Refused})
    case Read =>
      || pc == ReadProbe(true) || pc.ReadLock? || pc.ReadWait? || pc.ReadTake? || ClosedPop(pc)
      || (pc.Done? && (pc.result in {ThrewRole, ThrewDeadlock, ThrewClosed, ThrewMessage} || pc.result.Got?))
    case TryRead =>
      || pc == ReadProbe(false) || pc.TryReadLock? || pc.TryReadTest? || ClosedPop(pc)
      || (pc.Done? && (pc.result in {ThrewRole, Nothing, ThrewMessage} || pc.result.Got?))
    case Close => pc.CloseLock? || pc.CloseSet? || pc == Done(Result.Closed)
  }

  predicate ClosedPop<V>(pc: Pc<V>) {
    pc.Pop? || pc.PopThrew? || pc.PopDone? || pc.NotifyRead? || pc.NotifyUnread?
  }

  /** The answers by which a read says that there is no message. */
  ghost predicate SaysEmpty<V>(op: Op<V>, pc: Pc<V>) {
    (op.Read? || op.TryRead?) && pc.Done? && pc.result in {ThrewDeadlock, ThrewClosed, Nothing}
  }

  /** The message that a read under way or a finished one has. */
  function Has<V>(pc: Pc<V>): seq<V> {
    match pc
    case PopDone(v) => [v]
    case NotifyRead(v) => [v]
    case Done(Got(v)) => [v]
    case _ => []
  }

  lemma ClosedBegins<V>(s: State<V>, l: Label<V>)
    requires Enabled(s, l) && l.Begin?
    ensures l.t in Apply(s, l).pc && ClosedPath(l.op, Apply(s, l).pc[l.t])
    ensures !SaysEmpty(l.op, Apply(s, l).pc[l.t]) && Has(Apply(s, l).pc[l.t]) == []
  {
  }

  /** The other threads neither wake the caller nor move it. */
  lemma OthersLeaveCaller<V>(s: State<V>, l: Label<V>, t: nat)
    requires Enabled(s, l) && t in s.pc && t != l.t && !s.pc[t].SendSleep? && !s.pc[t].ReadSleep?
    ensures t in Apply(s, l).pc && Apply(s, l).pc[t] == s.pc[t]
  {
    hide Memory, Target;
  }

  lemma ClosedSendStep<V>(s: State<V>, l: Label<V>, op: Op<V>)
    requires Enabled(s, l) && s.sh.closed && (op.Send? || op.TrySend?)
    requires ClosedPath(op, s.pc[l.t]) && !s.pc[l.t].Done?
    ensures ClosedPath(op, Target(s, l)) && Has(Target(s, l)) == []
  {
    hide ReadTarget;
  }

  lemma ClosedReadStep<V>(s: State<V>, l: Label<V>, op: Op<V>)
    requires Enabled(s, l) && s.sh.closed && (op.Read? || op.TryRead? || op.Close?)
    requires ClosedPath(op, s.pc[l.t]) && !s.pc[l.t].Done? && (s.pc[l.t].Pop? ==> s.sh.buffer != [])
    ensures ClosedPath(op, Target(s, l))
    ensures Has(Target(s, l)) == if l.Step? && s.pc[l.t].Pop? then [s.sh.buffer[0]] else Has(s.pc[l.t])
    ensures SaysEmpty(op, Target(s, l)) ==>
              if s.pc[l.t].ReadProbe? then s.sh.mutex == Free && s.sh.used == 0
              else (s.pc[l.t].ReadTake? || s.pc[l.t].TryReadTest?) && s.sh.used == 0
  {
    hide SendTarget;
  }

  lemma ReaderSeesBuffer<V>(s: State<V>, t: nat)
    requires Reserved(s) && t in s.pc && (s.pc[t].ReadTake? || s.pc[t].TryReadTest?)
    ensures s.sh.used == |s.sh.buffer|
  {
    HolderBooks(s, t);
  }

  lemma EmptySeen<V>(s: State<V>, t: nat)
    requires Reserved(s) && t in s.pc && s.sh.used == 0
    requires s.sh.mutex == Free || s.pc[t].ReadTake? || s.pc[t].TryReadTest?
    ensures s.sh.buffer == []
  {
    if s.sh.mutex != Free { ReaderSeesBuffer(s, t); }
  }

  /** One more step of a call on a closed queue. */
  lemma ClosedStep<V>(s: State<V>, l: Label<V>, op: Op<V>, t: nat)
    requires Reserved(s) && Enabled(s, l) && s.sh.closed && t in s.pc && ClosedPath(op, s.pc[t]) && !s.pc[t].Done?
    ensures t in Apply(s, l).pc && ClosedPath(op, Apply(s, l).pc[t])
    ensures SaysEmpty(op, Apply(s, l).pc[t]) ==> s.sh.buffer == []
    ensures Has(Apply(s, l).pc[t]) == Has(s.pc[t])
            || (s.sh.buffer != [] && Has(Apply(s, l).pc[t]) == [s.sh.buffer[0]])
  {
    hide Memory, Reserved, SendTarget, ReadTarget;
    if l.t != t {
      OthersLeaveCaller(s, l, t);
    } else {
      if s.pc[t].Pop? { PopSeesMessage(s, t); }
      hide Target;
      if op.Send? || op.TrySend? {
        ClosedSendStep(s, l, op);
      } else {
        ClosedReadStep(s, l, op);
        if SaysEmpty(op, Target(s, l)) { EmptySeen(s, t); }
      }
    }
  }

  lemma {:induction false} ClosedCallPath<V>(r: seq<State<V>>, ls: seq<Label<V>>, i: nat, j: nat, t: nat)
    requires IsRun(r, ls) && i < j < |r| && r[i].sh.closed && ls[i].Begin? && ls[i].t == t
    requires forall m | i < m < j :: t in r[m].pc ==> !r[m].pc[t].Done?
    ensures t in r[j].pc && ClosedPath(ls[i].op, r[j].pc[t])
    ensures SaysEmpty(ls[i].op, r[j].pc[t]) ==> r[j].sh.buffer == []
    ensures forall v | v in Has(r[j].pc[t]) :: v in r[i].sh.buffer
    decreases j
  {
    hide Apply, Enabled, Reserved, ClosedPath, SaysEmpty, Has, Initial;
    var s, l := r[j - 1], ls[j - 1];
    assert Enabled(s, l) && r[j - 1 + 1] == Apply(s, l);
    if i == j - 1 {
      ClosedBegins(s, l);
    } else {
      ClosedCallPath(r, ls, i, j - 1, t);
      StaysClosed(r, ls, i, j - 1);
      RunInv(r, ls, j - 1);
      ClosedStep(s, l, ls[i].op, t);
      CloseAndDrain(r, ls, i, j - 1);
      StaysEmpty(r, ls, i, j - 1);
    }
  }

  /** A closed queue that is empty stays empty. */
  lemma StaysEmpty<V>(r: seq<State<V>>, ls: seq<Label<V>>, i: nat, j: nat)
    requires IsRun(r, ls) && i <= j < |ls| && r[i].sh.closed
    ensures r[j].sh.buffer == [] ==> r[j + 1].sh.buffer == []
  {
    hide Enabled, Apply, Initial;
    StaysClosed(r, ls, i, j);
    CloseAndDrain(r, ls, j, j + 1);
  }

  /** The answer of every call that begins after the queue was closed, at any interleaving: a send is refused, one
      way or the other; a read gets one of the messages that were there, or fails with its message, and says that
      there is none only when that is so. It is asleep at no moment. */
  lemma ClosedCall<V>(r: seq<State<V>>, ls: seq<Label<V>>, i: nat, j: nat, t: nat)
    requires IsRun(r, ls) && i < j < |r| && r[i].sh.closed && ls[i].Begin? && ls[i].t == t
    requires forall m | i < m < j :: t in r[m].pc ==> !r[m].pc[t].Done?
    ensures t in r[j].pc && !r[j].pc[t].SendSleep? && !r[j].pc[t].ReadSleep?
    ensures r[j].pc[t].Done? ==>
              var answer := r[j].pc[t].result;
              match ls[i].op
              case Send(_) => answer in {ThrewRole, ThrewDeadlock, ThrewClosed}
              case TrySend(_) => answer in {ThrewRole, Refused}
              case Read =>
                || answer in {ThrewRole, ThrewMessage} || (answer.Got? && answer.value in r[i].sh.buffer)
                || (answer in {ThrewDeadlock, ThrewClosed} && r[j].sh.buffer == [])
              case TryRead =>
                || answer in {ThrewRole, ThrewMessage} || (answer.Got? && answer.value in r[i].sh.buffer)
                || (answer == Nothing && r[j].sh.buffer == [])
              case Close => answer == Result.Closed
  {
    hide IsRun;
    ClosedCallPath(r, ls, i, j, t);
    if r[j].pc[t].Done? && r[j].pc[t].result.Got? {
      assert r[j].pc[t].result.value in Has(r[j].pc[t]);
    }
  }
}
