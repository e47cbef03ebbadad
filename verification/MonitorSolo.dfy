/** One thread of the monitor queue running alone for a while, the others paused wherever they are. */
module MonitorSolo {
  import opened Roles
  import opened Monitor
  import opened MonitorInvariant
  import Tallies

  // Each lemma extends a run by the steps between two decisions of a call, and says what they did.

  /** One step of thread t that notifies nobody. */
  lemma Walk<V>(h: Story<V>, l: Label<V>, sh: Shared<V>, to: Pc<V>) returns (h': Story<V>)
    requires h.Runs() && l.t in h.Last().pc && !l.Begin? && !l.NotifyOne?
    requires Enabled(h.Last(), l) && !Closing(h.Last().pc[l.t]) && Memory(h.Last(), l) == sh
             && Target(h.Last(), l) == to
    ensures h'.Runs() && h'.Last() == h.Last().(sh := sh, pc := h.Last().pc[l.t := to]) && h'.states[0] == h.states[0]
  {
    hide Memory, Target, Enabled, Threads, IsRun;
    h' := Advance(h, l);
    PlainThreads(h.Last(), l);
  }

  lemma Calls<V>(h: Story<V>, t: nat, op: Op<V>) returns (h': Story<V>)
    requires h.Runs() && t in h.Last().pc && h.Last().pc[t].Done?
    ensures h'.Runs() && h'.states[0] == h.states[0]
    ensures h'.Last() == h.Last().(roles := RolesAfter(h.Last(), Begin(t, op)),
                                   pc := h.Last().pc[t := Start(h.Last(), t, op)])
  {
    hide IsRun, Threads, RolesAfter, Start;
    h' := Advance(h, Begin(t, op));
    PlainThreads(h.Last(), Begin(t, op));
  }

  /** CheckSendDeadlockPossibility and HandleDeadlock. */
  lemma ProbesSend<V>(h: Story<V>, t: nat, v: V, blocking: bool) returns (h': Story<V>)
    requires h.Runs() && t in h.Last().pc && h.Last().pc[t] == SendProbe(v, blocking)
    requires ProbeLocks(h.Last(), t) ==> h.Last().sh.mutex == Free
    ensures h'.Runs() && h'.states[0] == h.states[0]
    ensures h'.Last() == h.Last().(pc := h.Last().pc[t :=
              if Alarm(h.Last(), t) && !blocking then Done(Refused)
              else if Alarm(h.Last(), t) && !h.Last().config.policy.NoException? then Done(ThrewDeadlock)
              else if blocking then SendLock(v) else TrySendLock(v)])
  {
    hide IsRun, ReadTarget;
    var s := h.Last();
    h' := Walk(h, Step(t), s.sh, SendTarget(s, t));
  }

  lemma ProbesRead<V>(h: Story<V>, t: nat, blocking: bool) returns (h': Story<V>)
    requires h.Runs() && t in h.Last().pc && h.Last().pc[t] == ReadProbe(blocking)
    requires ProbeLocks(h.Last(), t) ==> h.Last().sh.mutex == Free
    ensures h'.Runs() && h'.states[0] == h.states[0]
    ensures h'.Last() == h.Last().(pc := h.Last().pc[t :=
              if Alarm(h.Last(), t) && !blocking then Done(Nothing)
              else if Alarm(h.Last(), t) && !h.Last().config.policy.NoException? then Done(ThrewDeadlock)
              else if blocking then ReadLock else TryReadLock])
  {
    hide IsRun, SendTarget;
    var s := h.Last();
    h' := Walk(h, Step(t), s.sh, ReadTarget(s, t));
  }

  /** Where a thread goes when it gets the mutex. */
  function Inside<V>(pc: Pc<V>): Pc<V> {
    match pc
    case SendLock(v) => SendEnter(v)
    case SendWoken(v) => SendWait(v, true)
    case TrySendLock(v) => TrySendTest(v)
    case ReadLock => ReadWait(false)
    case ReadWoken => ReadWait(true)
    case TryReadLock => TryReadTest
    case CloseLock => CloseSet
    case _ => pc
  }

  lemma GetsMutex<V>(h: Story<V>, t: nat) returns (h': Story<V>)
    requires h.Runs() && t in h.Last().pc && Locks(h.Last().pc[t]) && h.Last().sh.mutex == Free
    ensures h'.Runs() && h'.states[0] == h.states[0]
    ensures h'.Last() == h.Last().(sh := h.Last().sh.(mutex := HeldBy(t)),
                                   pc := h.Last().pc[t := Inside(h.Last().pc[t])])
  {
    hide IsRun;
    h' := Walk(h, Step(t), h.Last().sh.(mutex := HeldBy(t)), Inside(h.Last().pc[t]));
  }

  /** The tests of SyncAndOverflowPrework under the mutex. */
  lemma TestsSend<V>(h: Story<V>, t: nat, v: V) returns (h': Story<V>)
    requires h.Runs() && t in h.Last().pc && h.Last().pc[t] == SendEnter(v)
    ensures h'.Runs() && h'.states[0] == h.states[0]
    ensures h'.Last() == if h.Last().sh.closed
                         then h.Last().(sh := h.Last().sh.(mutex := Free), pc := h.Last().pc[t := Done(ThrewClosed)])
                         else h.Last().(pc := h.Last().pc[t := SendWait(v, false)])
  {
    hide IsRun, ReadTarget;
    var s := h.Last();
    if s.sh.closed {
      h' := Walk(h, Step(t), s.sh.(mutex := Free), Done(ThrewClosed));
    } else {
      h' := Walk(h, Step(t), s.sh, SendWait(v, false));
    }
  }

  /** not_full_.wait puts the sender to sleep. */
  lemma GoesToSleepSending<V>(h: Story<V>, t: nat, v: V, woken: bool) returns (h': Story<V>)
    requires h.Runs() && t in h.Last().pc && h.Last().pc[t] == SendWait(v, woken)
    requires !h.Last().sh.closed && h.Last().sh.free <= 0
    ensures h'.Runs() && h'.states[0] == h.states[0]
    ensures h'.Last() == h.Last().(sh := h.Last().sh.(mutex := Free), pc := h.Last().pc[t := SendSleep(v)])
  {
    hide IsRun, ReadTarget;
    h' := Walk(h, Step(t), h.Last().sh.(mutex := Free), SendSleep(v));
  }

  lemma ReservesSlot<V>(h: Story<V>, t: nat, v: V, woken: bool) returns (h': Story<V>)
    requires h.Runs() && t in h.Last().pc && h.Last().pc[t] == SendWait(v, woken)
    requires !h.Last().sh.closed && h.Last().sh.free > 0
    ensures h'.Runs() && h'.states[0] == h.states[0]
    ensures h'.Last() == h.Last().(sh := h.Last().sh.(free := h.Last().sh.free - 1), pc := h.Last().pc[t := Store(v)])
  {
    hide IsRun, ReadTarget;
    var s := h.Last();
    h' := Walk(h, Step(t), s.sh, SendTake(v, woken));
    h' := Walk(h', Step(t), s.sh.(free := s.sh.free - 1), Store(v));
    Tallies.Again(s.pc, t, SendTake(v, woken), Store(v));
  }

  /** TrySyncAndOverflowPrework under the mutex. */
  lemma TriesSlot<V>(h: Story<V>, t: nat, v: V) returns (h': Story<V>)
    requires h.Runs() && t in h.Last().pc && h.Last().pc[t] == TrySendTest(v) && h.Last().sh.free >= 0
    ensures h'.Runs() && h'.states[0] == h.states[0]
    ensures h'.Last() == if h.Last().sh.closed || h.Last().sh.free == 0
                         then h.Last().(sh := h.Last().sh.(mutex := Free), pc := h.Last().pc[t := Done(Refused)])
                         else h.Last().(sh := h.Last().sh.(free := h.Last().sh.free - 1),
                                        pc := h.Last().pc[t := Store(v)])
  {
    hide IsRun, ReadTarget;
    var s := h.Last();
    if s.sh.closed || s.sh.free == 0 {
      h' := Walk(h, Step(t), s.sh.(mutex := Free), Done(Refused));
    } else {
      h' := Walk(h, Step(t), s.sh.(free := s.sh.free - 1), Store(v));
    }
  }

  /** The store succeeds, and the mutex is released. */
  lemma Stores<V>(h: Story<V>, t: nat, v: V) returns (h': Story<V>)
    requires h.Runs() && t in h.Last().pc && h.Last().pc[t] == Store(v)
    ensures h'.Runs() && h'.states[0] == h.states[0]
    ensures h'.Last() == h.Last().(
                           sh := h.Last().sh.(buffer := h.Last().sh.buffer + [v], used := h.Last().sh.used + 1,
                                              mutex := Free),
                           pc := h.Last().pc[t := NotifySent])
  {
    hide IsRun, ReadTarget;
    var s := h.Last();
    var stored := s.sh.(buffer := s.sh.buffer + [v]);
    h' := Walk(h, Step(t), stored, StoreDone);
    h' := Walk(h', Step(t), stored.(used := s.sh.used + 1, mutex := Free), NotifySent);
    Tallies.Again(s.pc, t, StoreDone, NotifySent);
  }

  /** The message throws, the slot is given back, and the mutex is released. */
  lemma StoreThrows<V>(h: Story<V>, t: nat, v: V) returns (h': Story<V>)
    requires h.Runs() && t in h.Last().pc && h.Last().pc[t] == Store(v)
    ensures h'.Runs() && h'.states[0] == h.states[0]
    ensures h'.Last() == h.Last().(
                           sh := h.Last().sh.(free := h.Last().sh.free + 1, mutex := Free),
                           pc := h.Last().pc[t := if h.Last().config.rollbackNotifies then NotifyUnsent
                                                  else Done(ThrewMessage)])
  {
    hide IsRun, ReadTarget;
    var s, to := h.Last(), if h.Last().config.rollbackNotifies then NotifyUnsent else Done(ThrewMessage);
    h' := Walk(h, Fail(t), s.sh, StoreThrew);
    h' := Walk(h', Step(t), s.sh.(free := s.sh.free + 1, mutex := Free), to);
    Tallies.Again(s.pc, t, StoreThrew, to);
  }

  lemma GoesToSleepReading<V>(h: Story<V>, t: nat, woken: bool) returns (h': Story<V>)
    requires h.Runs() && t in h.Last().pc && h.Last().pc[t] == ReadWait(woken)
    requires !h.Last().sh.closed && h.Last().sh.used <= 0
    ensures h'.Runs() && h'.states[0] == h.states[0]
    ensures h'.Last() == h.Last().(sh := h.Last().sh.(mutex := Free), pc := h.Last().pc[t := ReadSleep])
  {
    hide IsRun, SendTarget;
    h' := Walk(h, Step(t), h.Last().sh.(mutex := Free), ReadSleep);
  }

  /** SyncAndUnderflowPrework after its wait. */
  lemma TakesReservation<V>(h: Story<V>, t: nat, woken: bool) returns (h': Story<V>)
    requires h.Runs() && t in h.Last().pc && h.Last().pc[t] == ReadTake(woken) && h.Last().sh.used >= 0
    ensures h'.Runs() && h'.states[0] == h.states[0]
    ensures h'.Last() == if h.Last().sh.used == 0
                         then h.Last().(sh := h.Last().sh.(mutex := Free), pc := h.Last().pc[t := Done(ThrewClosed)])
                         else h.Last().(sh := h.Last().sh.(used := h.Last().sh.used - 1), pc := h.Last().pc[t := Pop])
  {
    hide IsRun, SendTarget;
    var s := h.Last();
    if s.sh.used == 0 {
      h' := Walk(h, Step(t), s.sh.(mutex := Free), Done(ThrewClosed));
    } else {
      h' := Walk(h, Step(t), s.sh.(used := s.sh.used - 1), Pop);
    }
  }

  lemma ReservesMessage<V>(h: Story<V>, t: nat, woken: bool) returns (h': Story<V>)
    requires h.Runs() && t in h.Last().pc && h.Last().pc[t] == ReadWait(woken)
    requires h.Last().sh.used >= 0 && (h.Last().sh.closed || h.Last().sh.used > 0)
    ensures h'.Runs() && h'.states[0] == h.states[0]
    ensures h'.Last() == if h.Last().sh.used == 0
                         then h.Last().(sh := h.Last().sh.(mutex := Free), pc := h.Last().pc[t := Done(ThrewClosed)])
                         else h.Last().(sh := h.Last().sh.(used := h.Last().sh.used - 1), pc := h.Last().pc[t := Pop])
  {
    hide IsRun, SendTarget;
    var s := h.Last();
    h' := Walk(h, Step(t), s.sh, ReadTake(woken));
    hide Enabled, ReadTarget, Memory, Target;
    h' := TakesReservation(h', t, woken);
    Tallies.Again(s.pc, t, ReadTake(woken), if s.sh.used == 0 then Done(ThrewClosed) else Pop);
  }

  lemma TriesMessage<V>(h: Story<V>, t: nat) returns (h': Story<V>)
    requires h.Runs() && t in h.Last().pc && h.Last().pc[t] == TryReadTest && h.Last().sh.used >= 0
    ensures h'.Runs() && h'.states[0] == h.states[0]
    ensures h'.Last() == if h.Last().sh.used == 0
                         then h.Last().(sh := h.Last().sh.(mutex := Free), pc := h.Last().pc[t := Done(Nothing)])
                         else h.Last().(sh := h.Last().sh.(used := h.Last().sh.used - 1), pc := h.Last().pc[t := Pop])
  {
    hide IsRun, SendTarget;
    var s := h.Last();
    if s.sh.used == 0 {
      h' := Walk(h, Step(t), s.sh.(mutex := Free), Done(Nothing));
    } else {
      h' := Walk(h, Step(t), s.sh.(used := s.sh.used - 1), Pop);
    }
  }

  /** The pop succeeds, and the mutex is released. */
  lemma Pops<V>(h: Story<V>, t: nat) returns (h': Story<V>)
    requires h.Runs() && t in h.Last().pc && h.Last().pc[t] == Pop && h.Last().sh.buffer != []
    ensures h'.Runs() && h'.states[0] == h.states[0]
    ensures h'.Last() == h.Last().(
                           sh := h.Last().sh.(buffer := h.Last().sh.buffer[1..], free := h.Last().sh.free + 1,
                                              mutex := Free),
                           pc := h.Last().pc[t := NotifyRead(h.Last().sh.buffer[0])])
  {
    hide IsRun, SendTarget;
    var s, v := h.Last(), h.Last().sh.buffer[0];
    var popped := s.sh.(buffer := s.sh.buffer[1..]);
    h' := Walk(h, Step(t), popped, PopDone(v));
    h' := Walk(h', Step(t), popped.(free := s.sh.free + 1, mutex := Free), NotifyRead(v));
    Tallies.Again(s.pc, t, PopDone(v), NotifyRead(v));
  }

  lemma PopThrows<V>(h: Story<V>, t: nat) returns (h': Story<V>)
    requires h.Runs() && t in h.Last().pc && h.Last().pc[t] == Pop
    ensures h'.Runs() && h'.states[0] == h.states[0]
    ensures h'.Last() == h.Last().(
                           sh := h.Last().sh.(used := h.Last().sh.used + 1, mutex := Free),
                           pc := h.Last().pc[t := if h.Last().config.rollbackNotifies then NotifyUnread
                                                  else Done(ThrewMessage)])
  {
    hide IsRun, SendTarget;
    var s, to := h.Last(), if h.Last().config.rollbackNotifies then NotifyUnread else Done(ThrewMessage);
    h' := Walk(h, Fail(t), s.sh, PopThrew);
    h' := Walk(h', Step(t), s.sh.(used := s.sh.used + 1, mutex := Free), to);
    Tallies.Again(s.pc, t, PopThrew, to);
  }

  predicate Asleep<V>(pc: Pc<V>, senders: bool) { if senders then pc.SendSleep? else pc.ReadSleep? }

  /** The threads after a notify_one by t, which then ends its call: one sleeper, if there is one, is woken. */
  ghost predicate WokeOne<V>(pc: map<nat, Pc<V>>, pc': map<nat, Pc<V>>, t: nat, senders: bool, result: Result<V>) {
    || (pc' == pc[t := Done(result)] && forall u | u in pc :: !Asleep(pc[u], senders))
    || exists w :: w in pc && Asleep(pc[w], senders) && pc' == pc[t := Done(result)][w := WakeUp(pc[w])]
  }

  /** What a notifier returns. */
  function Returns<V>(pc: Pc<V>): Result<V> {
    match pc
    case NotifySent => Sent
    case NotifyRead(v) => Got(v)
    case _ => ThrewMessage
  }

  /** notify_one, with any choice of the sleeper, and the return. */
  lemma Notifies<V>(h: Story<V>, t: nat, senders: bool) returns (h': Story<V>)
    requires h.Runs() && t in h.Last().pc
    requires if senders then NotifiesSenders(h.Last().pc[t]) else NotifiesReaders(h.Last().pc[t])
    ensures h'.Runs() && h'.states[0] == h.states[0] && h'.Last() == h.Last().(pc := h'.Last().pc)
    ensures WokeOne(h.Last().pc, h'.Last().pc, t, senders, Returns(h.Last().pc[t]))
  {
    hide IsRun, Threads;
    var s := h.Last();
    if w :| w in s.pc && Asleep(s.pc[w], senders) {
      h' := Advance(h, NotifyOne(t, w));
      NotifyThreads(s, NotifyOne(t, w));
    } else {
      h' := Walk(h, Step(t), s.sh, Done(Returns(s.pc[t])));
    }
  }

  /** Close under the mutex. */
  lemma SetsClosed<V>(h: Story<V>, t: nat) returns (h': Story<V>)
    requires h.Runs() && t in h.Last().pc && h.Last().pc[t] == CloseSet
    ensures h'.Runs() && h'.states[0] == h.states[0]
    ensures h'.Last() == h.Last().(sh := h.Last().sh.(closed := true, mutex := Free),
                                   pc := h.Last().pc[t := if h.Last().sh.closed then Done(Closed) else CloseNotFull])
  {
    hide IsRun, SendTarget;
    var s := h.Last();
    h' := Walk(h, Step(t), s.sh.(closed := true, mutex := Free), if s.sh.closed then Done(Closed) else CloseNotFull);
  }

  /** Everybody awake: what both notify_all calls leave behind. */
  function Awake<V>(pc: map<nat, Pc<V>>): map<nat, Pc<V>> { map u | u in pc :: WakeUp(pc[u]) }

  lemma WakesEveryone<V>(h: Story<V>, t: nat) returns (h': Story<V>)
    requires h.Runs() && t in h.Last().pc && h.Last().pc[t] == CloseNotFull
    ensures h'.Runs() && h'.states[0] == h.states[0]
    ensures h'.Last() == h.Last().(pc := Awake(h.Last().pc)[t := Done(Closed)])
  {
    hide IsRun;
    h' := Advance(h, Step(t));
    h' := Advance(h', Step(t));
  }

  /** A notifier that was awake before its notification. */
  lemma WokeFrom<V>(pc: map<nat, Pc<V>>, pc': map<nat, Pc<V>>, t: nat, x: Pc<V>, senders: bool, result: Result<V>)
    requires t in pc && !Asleep(pc[t], senders) && !Asleep(x, senders)
    requires WokeOne(pc[t := x], pc', t, senders, result)
    ensures WokeOne(pc, pc', t, senders, result)
  {
    Tallies.Again(pc, t, x, Done(result));
    if w :| && w in pc && Asleep(pc[t := x][w], senders)
            && pc' == pc[t := x][t := Done(result)][w := WakeUp(pc[t := x][w])] {
      assert w != t && pc' == pc[t := Done(result)][w := WakeUp(pc[w])];
    } else {
      forall u | u in pc ensures !Asleep(pc[u], senders) {
        assert u != t ==> !Asleep(pc[t := x][u], senders);
      }
    }
  }

  /** The threads but t are as they were. */
  ghost predicate OthersSame<V>(pc: map<nat, Pc<V>>, pc': map<nat, Pc<V>>, t: nat) {
    pc'.Keys == pc.Keys && forall u | u in pc && u != t :: pc'[u] == pc[u]
  }

  /** Only t moved between was and before. */
  lemma WokeSince<V>(was: map<nat, Pc<V>>, before: map<nat, Pc<V>>, pc': map<nat, Pc<V>>, t: nat, senders: bool,
                     result: Result<V>)
    requires t in was && OthersSame(was, before, t) && WokeOne(before, pc', t, senders, result)
    requires !Asleep(was[t], senders) && !Asleep(before[t], senders)
    ensures WokeOne(was, pc', t, senders, result)
  {
    assert before == was[t := before[t]];
    WokeFrom(was, pc', t, before[t], senders, result);
  }

  // The stages of a call, from one field access under the mutex to the next.

  /** SyncAndOverflowPrework with the mutex free. */
  lemma Overflows<V>(h: Story<V>, t: nat, v: V) returns (h': Story<V>)
    requires h.Runs() && t in h.Last().pc && h.Last().pc[t] == SendLock(v)
    requires h.Last().sh.mutex == Free && h.Last().sh.free >= 0
    ensures h'.Runs() && h'.states[0] == h.states[0]
    ensures h'.Last() == if h.Last().sh.closed then h.Last().(pc := h.Last().pc[t := Done(ThrewClosed)])
                         else if h.Last().sh.free == 0 then h.Last().(pc := h.Last().pc[t := SendSleep(v)])
                         else h.Last().(sh := h.Last().sh.(free := h.Last().sh.free - 1, mutex := HeldBy(t)),
                                        pc := h.Last().pc[t := Store(v)])
  {
    hide IsRun, Enabled, Threads, Memory, Target;
    var s := h.Last();
    h' := GetsMutex(h, t);
    h' := TestsSend(h', t, v);
    if s.sh.closed {
      Tallies.Again(s.pc, t, SendEnter(v), Done(ThrewClosed));
    } else {
      Tallies.Again(s.pc, t, SendEnter(v), SendWait(v, false));
      if s.sh.free == 0 {
        h' := GoesToSleepSending(h', t, v, false);
        Tallies.Again(s.pc, t, SendWait(v, false), SendSleep(v));
      } else {
        h' := ReservesSlot(h', t, v, false);
        Tallies.Again(s.pc, t, SendWait(v, false), Store(v));
      }
    }
  }

  /** TrySyncAndOverflowPrework with the mutex free. */
  lemma TryOverflows<V>(h: Story<V>, t: nat, v: V) returns (h': Story<V>)
    requires h.Runs() && t in h.Last().pc && h.Last().pc[t] == TrySendLock(v)
    requires h.Last().sh.mutex == Free && h.Last().sh.free >= 0
    ensures h'.Runs() && h'.states[0] == h.states[0]
    ensures h'.Last() == if h.Last().sh.closed || h.Last().sh.free == 0
                         then h.Last().(pc := h.Last().pc[t := Done(Refused)])
                         else h.Last().(sh := h.Last().sh.(free := h.Last().sh.free - 1, mutex := HeldBy(t)),
                                        pc := h.Last().pc[t := Store(v)])
  {
    hide IsRun, Enabled, Threads, Memory, Target;
    var s := h.Last();
    h' := GetsMutex(h, t);
    h' := TriesSlot(h', t, v);
    Tallies.Again(s.pc, t, TrySendTest(v), if s.sh.closed || s.sh.free == 0 then Done(Refused) else Store(v));
  }

  /** SyncAndUnderflowPrework with the mutex free. */
  lemma Underflows<V>(h: Story<V>, t: nat) returns (h': Story<V>)
    requires h.Runs() && t in h.Last().pc && h.Last().pc[t] == ReadLock
    requires h.Last().sh.mutex == Free && h.Last().sh.used >= 0
    ensures h'.Runs() && h'.states[0] == h.states[0]
    ensures h'.Last() == if h.Last().sh.used > 0
                         then h.Last().(sh := h.Last().sh.(used := h.Last().sh.used - 1, mutex := HeldBy(t)),
                                        pc := h.Last().pc[t := Pop])
                         else h.Last().(pc := h.Last().pc[t := if h.Last().sh.closed then Done(ThrewClosed)
                                                               else ReadSleep])
  {
    hide IsRun, Enabled, Threads, Memory, Target;
    var s := h.Last();
    h' := GetsMutex(h, t);
    if s.sh.used == 0 && !s.sh.closed {
      h' := GoesToSleepReading(h', t, false);
      Tallies.Again(s.pc, t, ReadWait(false), ReadSleep);
    } else {
      h' := ReservesMessage(h', t, false);
      Tallies.Again(s.pc, t, ReadWait(false), if s.sh.used == 0 then Done(ThrewClosed) else Pop);
    }
  }

  /** TrySyncAndUnderflowPrework with the mutex free. */
  lemma TryUnderflows<V>(h: Story<V>, t: nat) returns (h': Story<V>)
    requires h.Runs() && t in h.Last().pc && h.Last().pc[t] == TryReadLock
    requires h.Last().sh.mutex == Free && h.Last().sh.used >= 0
    ensures h'.Runs() && h'.states[0] == h.states[0]
    ensures h'.Last() == if h.Last().sh.used == 0
                         then h.Last().(pc := h.Last().pc[t := Done(Nothing)])
                         else h.Last().(sh := h.Last().sh.(used := h.Last().sh.used - 1, mutex := HeldBy(t)),
                                        pc := h.Last().pc[t := Pop])
  {
    hide IsRun, Enabled, Threads, Memory, Target;
    var s := h.Last();
    h' := GetsMutex(h, t);
    h' := TriesMessage(h', t);
    Tallies.Again(s.pc, t, TryReadTest, if s.sh.used == 0 then Done(Nothing) else Pop);
  }

  /** Everybody but the thread that ends its call is as before, or one sleeper is woken. */
  ghost predicate Finished<V>(pc: map<nat, Pc<V>>, pc': map<nat, Pc<V>>, t: nat, notifies: bool, senders: bool,
                              result: Result<V>) {
    if notifies then WokeOne(pc, pc', t, senders, result) else pc' == pc[t := Done(result)]
  }

  /** StoreMessage and SendPostwork. */
  lemma FinishesStore<V>(h: Story<V>, t: nat, v: V, throws: bool) returns (h': Story<V>)
    requires h.Runs() && t in h.Last().pc && h.Last().pc[t] == Store(v)
    ensures h'.Runs() && h'.states[0] == h.states[0]
    ensures h'.Last() == h.Last().(
                           sh := if throws then h.Last().sh.(free := h.Last().sh.free + 1, mutex := Free)
                           else h.Last().sh.(buffer := h.Last().sh.buffer + [v], used := h.Last().sh.used + 1,
                                             mutex := Free),
                           pc := h'.Last().pc)
    ensures Finished(h.Last().pc, h'.Last().pc, t, !throws || h.Last().config.rollbackNotifies, throws,
                     if throws then ThrewMessage else Sent)
  {
    hide IsRun, Enabled, Threads, Memory, Target, WokeOne;
    var s := h.Last();
    if throws {
      h' := StoreThrows(h, t, v);
      if s.config.rollbackNotifies {
        h' := Notifies(h', t, true);
        WokeFrom(s.pc, h'.Last().pc, t, NotifyUnsent, true, ThrewMessage);
      }
    } else {
      h' := Stores(h, t, v);
      h' := Notifies(h', t, false);
      WokeFrom(s.pc, h'.Last().pc, t, NotifySent, false, Sent);
    }
  }

  /** PopMessage and ReadPostwork. */
  lemma FinishesPop<V>(h: Story<V>, t: nat, throws: bool) returns (h': Story<V>)
    requires h.Runs() && t in h.Last().pc && h.Last().pc[t] == Pop && h.Last().sh.buffer != []
    ensures h'.Runs() && h'.states[0] == h.states[0]
    ensures h'.Last() == h.Last().(
                           sh := if throws then h.Last().sh.(used := h.Last().sh.used + 1, mutex := Free)
                           else h.Last().sh.(buffer := h.Last().sh.buffer[1..], free := h.Last().sh.free + 1,
                                             mutex := Free),
                           pc := h'.Last().pc)
    ensures Finished(h.Last().pc, h'.Last().pc, t, !throws || h.Last().config.rollbackNotifies, !throws,
                     if throws then ThrewMessage else Got(h.Last().sh.buffer[0]))
  {
    hide IsRun, Enabled, Threads, Memory, Target, WokeOne;
    var s := h.Last();
    if throws {
      h' := PopThrows(h, t);
      if s.config.rollbackNotifies {
        h' := Notifies(h', t, false);
        WokeFrom(s.pc, h'.Last().pc, t, NotifyUnread, false, ThrewMessage);
      }
    } else {
      h' := Pops(h, t);
      h' := Notifies(h', t, true);
      WokeFrom(s.pc, h'.Last().pc, t, NotifyRead(s.sh.buffer[0]), true, Got(s.sh.buffer[0]));
    }
  }

  /** Close with the mutex free. */
  lemma Closes<V>(h: Story<V>, t: nat) returns (h': Story<V>)
    requires h.Runs() && t in h.Last().pc && h.Last().pc[t] == CloseLock && h.Last().sh.mutex == Free
    ensures h'.Runs() && h'.states[0] == h.states[0]
    ensures h'.Last() == h.Last().(sh := h.Last().sh.(closed := true),
                                   pc := (if h.Last().sh.closed then h.Last().pc
                                          else Awake(h.Last().pc))[t := Done(Closed)])
  {
    hide IsRun, Enabled, Threads, Memory, Target;
    var s := h.Last();
    h' := GetsMutex(h, t);
    h' := SetsClosed(h', t);
    if s.sh.closed {
      Tallies.Again(s.pc, t, CloseSet, Done(Closed));
    } else {
      Tallies.Again(s.pc, t, CloseSet, CloseNotFull);
      h' := WakesEveryone(h', t);
      assert Awake(s.pc[t := CloseNotFull])[t := Done(Closed)] == Awake(s.pc)[t := Done(Closed)];
    }
  }
}
