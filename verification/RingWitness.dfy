/** Runs of the ring in which an operation does something its caller would not expect. */
module RingWitness {
  import opened Counters
  import opened Roles
  import opened Ring
  import Tallies

  /** One step of thread t that goes through. */
  lemma Walk<V>(h: Story<V>, t: nat, sh: Shared<V>, to: Pc<V>) returns (h': Story<V>)
    requires h.Runs() && t in h.Last().pc && !h.Last().pc[t].Done? && Available(h.Last().sh, h.Last().pc[t])
    requires Sending(h.Last().pc[t]) ==> SendMemory(h.Last().config, h.Last().sh, t, h.Last().pc[t]) == sh
                                         && SendNext(h.Last(), t) == to
    requires !Sending(h.Last().pc[t]) ==>
               ReadMemory(h.Last().config, h.Last().moved, h.Last().sh, t, h.Last().pc[t]) == sh
                                          && ReadNext(h.Last(), t) == to
    ensures h'.Runs() && h'.states[0] == h.states[0]
    ensures h'.Last() == h.Last().(sh := sh, pc := h.Last().pc[t := to])
  {
    hide SendMemory, SendNext, ReadMemory, ReadNext, Sending, IsRun;
    h' := Advance(h, Step(t));
  }

  /** A try or a compare-and-swap that fails, with or without cause. */
  lemma Stumble<V>(h: Story<V>, l: Label<V>) returns (h': Story<V>)
    requires h.Runs() && l.t in h.Last().pc && CanFail(h.Last().config, h.Last().pc[l.t])
    requires l.Weak? || (l.Step? && !Available(h.Last().sh, h.Last().pc[l.t]))
    ensures h'.Runs() && h'.states[0] == h.states[0]
    ensures h'.Last() == h.Last().(pc := h.Last().pc[l.t := Failed(h.Last(), l.t)])
  {
    hide SendMemory, SendNext, ReadMemory, ReadNext, Sending, IsRun, Failed;
    h' := Advance(h, l);
  }

  /** The call may begin, and changes no role that was recorded. */
  ghost predicate Fresh<V>(h: Story<V>, t: nat, op: Op<V>) {
    && h.Runs() && t in h.Last().pc && h.Last().pc[t].Done? && MayBegin(h.Last(), op)
    && RoleOf(h.Last().roles, t) in {NoInfo, Direction(op)}
  }

  /** A call by a thread of one role: the probe has nothing to say. */
  lemma Calls<V>(h: Story<V>, t: nat, op: Op<V>) returns (h': Story<V>)
    requires Fresh(h, t, op)
    ensures h'.Runs() && h'.states[0] == h.states[0]
    ensures h'.Last() == h.Last().(roles := h.Last().roles[t := Direction(op)],
                                   pc := h.Last().pc[t := Start(h.Last(), t, op)])
    ensures !Start(h.Last(), t, op).Done?
  {
    hide IsRun;
    h' := Advance(h, Begin(t, op));
  }

  lemma SendEnters<V>(h: Story<V>, t: nat, v: V, blocking: bool) returns (h': Story<V>)
    requires Fresh(h, t, if blocking then Send(v) else TrySend(v)) && !h.Last().config.category.MPMC?
    ensures h'.Runs() && h'.states[0] == h.states[0]
    ensures h'.Last() == h.Last().(roles := h.Last().roles[t := Producer],
                                   pc := h.Last().pc[t := SendGuard(h.Last().config, v, blocking)])
  {
    hide IsRun, SendGuard;
    h' := Calls(h, t, if blocking then Send(v) else TrySend(v));
    h' := Walk(h', t, h.Last().sh, SendGuard(h.Last().config, v, blocking));
    Tallies.Again(h.Last().pc, t, SendProbe(v, blocking), SendGuard(h.Last().config, v, blocking));
  }

  /** The slot at the tail is written. */
  lemma WritesTail<V>(h: Story<V>, t: nat, v: V, notify: bool) returns (h': Story<V>)
    requires h.Runs() && t in h.Last().pc && h.Last().pc[t] == LoadTail(v, NoTicket, notify)
    requires h.Last().sh.tail < |h.Last().sh.buffer|
    ensures h'.Runs() && h'.states[0] == h.states[0]
    ensures h'.Last() == h.Last().(sh := h.Last().sh.(buffer := h.Last().sh.buffer[h.Last().sh.tail := v]),
                                   pc := h.Last().pc[t := SetTail(v, h.Last().sh.tail, notify)])
  {
    hide IsRun, Published, Next, ReadNext, ReadMemory, Alarm, IsFull, Enabled, Apply;
    var sh, pc := h.Last().sh, h.Last().pc;
    h' := Walk(h, t, sh, WriteSlot(v, sh.tail, NoTicket, notify));
    h' := Walk(h', t, sh.(buffer := sh.buffer[sh.tail := v]), SetTail(v, sh.tail, notify));
    Tallies.Again(pc, t, WriteSlot(v, sh.tail, NoTicket, notify), SetTail(v, sh.tail, notify));
  }

  lemma MovesTail<V>(h: Story<V>, t: nat, v: V, index: nat, notify: bool) returns (h': Story<V>)
    requires h.Runs() && t in h.Last().pc && h.Last().pc[t] == SetTail(v, index, notify)
    ensures h'.Runs() && h'.states[0] == h.states[0]
    ensures h'.Last() == h.Last().(sh := h.Last().sh.(tail := Next(h.Last().config, index)),
                                   pc := h.Last().pc[t := Published(h.Last().config, notify)])
  {
    hide IsRun, Published, Next, ReadNext, ReadMemory, Alarm, IsFull, Enabled, Apply;
    h' := Walk(h, t, h.Last().sh.(tail := Next(h.Last().config, index)), Published(h.Last().config, notify));
  }

  /** WriteTail at the tail. */
  lemma StoresAtTail<V>(h: Story<V>, t: nat, v: V, notify: bool) returns (h': Story<V>)
    requires h.Runs() && t in h.Last().pc && h.Last().pc[t] == LoadTail(v, NoTicket, notify)
    requires h.Last().sh.tail < |h.Last().sh.buffer|
    ensures h'.Runs() && h'.states[0] == h.states[0]
    ensures h'.Last() == h.Last().(
                           sh := h.Last().sh.(buffer := h.Last().sh.buffer[h.Last().sh.tail := v],
                                              tail := Next(h.Last().config, h.Last().sh.tail)),
                           pc := h.Last().pc[t := Published(h.Last().config, notify)])
  {
    hide IsRun, Published, Next;
    var tail := h.Last().sh.tail;
    h' := WritesTail(h, t, v, notify);
    h' := MovesTail(h', t, v, tail, notify);
    Tallies.Again(h.Last().pc, t, SetTail(v, tail, notify), Published(h.Last().config, notify));
  }

  /** The permit is released and the mutex, where there is one, unlocked; the counter is still to come. */
  lemma Publishes<V>(h: Story<V>, t: nat) returns (h': Story<V>)
    requires h.Runs() && t in h.Last().pc && h.Last().pc[t] == SendRelease
    ensures h'.Runs() && h'.states[0] == h.states[0]
    ensures h'.Last() == h.Last().(
                           sh := h.Last().sh.(occupied := h.Last().sh.occupied + 1,
                                              sendMutex := if h.Last().config.SendsLock() then Free
                                                           else h.Last().sh.sendMutex),
                           pc := h.Last().pc[t := SendCount])
  {
    hide IsRun, ReadNext, ReadMemory;
    var sh, pc := h.Last().sh, h.Last().pc;
    if h.Last().config.SendsLock() {
      h' := Walk(h, t, sh.(occupied := sh.occupied + 1), SendUnlock);
      h' := Walk(h', t, sh.(occupied := sh.occupied + 1, sendMutex := Free), SendCount);
      Tallies.Again(pc, t, SendUnlock, SendCount);
    } else {
      h' := Walk(h, t, sh.(occupied := sh.occupied + 1), SendCount);
    }
  }

  lemma Counts<V>(h: Story<V>, t: nat) returns (h': Story<V>)
    requires h.Runs() && t in h.Last().pc && h.Last().pc[t] == SendCount
    ensures h'.Runs() && h'.states[0] == h.states[0]
    ensures h'.Last() == h.Last().(sh := h.Last().sh.(count := h.Last().sh.count + 1),
                                   pc := h.Last().pc[t := Done(Sent)])
  {
    hide IsRun, ReadNext, ReadMemory;
    h' := Walk(h, t, h.Last().sh.(count := h.Last().sh.count + 1), Done(Sent));
  }

  /** ReadHead moves the message at the head out of its slot. */
  lemma MovesHead<V>(h: Story<V>, t: nat, lost: nat) returns (h': Story<V>)
    requires h.Runs() && t in h.Last().pc && h.Last().pc[t] == MoveHead(h.Last().sh.head, lost)
    requires h.Last().sh.head < |h.Last().sh.buffer|
    ensures h'.Runs() && h'.states[0] == h.states[0]
    ensures h'.Last() == h.Last().(
                           sh := h.Last().sh.(buffer := MovedOut(h.Last().moved, h.Last().sh.buffer, h.Last().sh.head)),
                           pc := h.Last().pc[
                             t := CasHead(h.Last().sh.head, h.Last().sh.buffer[h.Last().sh.head], lost)])
  {
    hide IsRun, Next, SendNext, SendMemory, MovedOut;
    var sh := h.Last().sh;
    h' := Walk(h, t, sh.(buffer := MovedOut(h.Last().moved, sh.buffer, sh.head)),
               CasHead(sh.head, sh.buffer[sh.head], lost));
  }

  lemma LooksAtHead<V>(h: Story<V>, t: nat) returns (h': Story<V>)
    requires h.Runs() && t in h.Last().pc && h.Last().pc[t] == LoadHead
    ensures h'.Runs() && h'.states[0] == h.states[0]
    ensures h'.Last() == h.Last().(pc := h.Last().pc[t := MoveHead(h.Last().sh.head, 0)])
  {
    hide IsRun, Next, SendNext, SendMemory;
    h' := Walk(h, t, h.Last().sh, MoveHead(h.Last().sh.head, 0));
  }

  /** A copied or moved message is subtracted, and the permit of its slot released. */
  lemma Returns<V>(h: Story<V>, t: nat, v: V) returns (h': Story<V>)
    requires h.Runs() && t in h.Last().pc && h.Last().pc[t] == ReadCount(v) && !h.Last().config.ReadsLock()
    ensures h'.Runs() && h'.states[0] == h.states[0]
    ensures h'.Last() == h.Last().(sh := h.Last().sh.(count := h.Last().sh.count - 1, free := h.Last().sh.free + 1),
                                   pc := h.Last().pc[t := Done(Got(v))])
  {
    hide IsRun, Next, SendNext, SendMemory, Alarm, IsEmpty, Holds, MovedOut, Enabled, Apply;
    var sh, pc := h.Last().sh, h.Last().pc;
    h' := Walk(h, t, sh.(count := sh.count - 1), ReadRelease(v));
    h' := Walk(h', t, sh.(count := sh.count - 1, free := sh.free + 1), Done(Got(v)));
    Tallies.Again(pc, t, ReadRelease(v), Done(Got(v)));
  }

  /** The compare-and-swap of the head succeeds, and the read returns what it moved. */
  lemma PassesHead<V>(h: Story<V>, t: nat, v: V, lost: nat) returns (h': Story<V>)
    requires h.Runs() && t in h.Last().pc && h.Last().pc[t] == CasHead(h.Last().sh.head, v, lost)
    requires !h.Last().config.ReadsLock()
    ensures h'.Runs() && h'.states[0] == h.states[0]
    ensures h'.Last() == h.Last().(
                           sh := h.Last().sh.(head := Next(h.Last().config, h.Last().sh.head),
                                              count := h.Last().sh.count - 1, free := h.Last().sh.free + 1),
                           pc := h.Last().pc[t := Done(Got(v))])
  {
    hide IsRun, Next, SendNext, SendMemory;
    var sh, pc := h.Last().sh, h.Last().pc;
    h' := Walk(h, t, sh.(head := Next(h.Last().config, sh.head)), ReadCount(v));
    h' := Returns(h', t, v);
    Tallies.Again(pc, t, ReadCount(v), Done(Got(v)));
  }

  /** PopMessage at the head, by a reader that has its permit and is alone. */
  lemma TakesAtHead<V>(h: Story<V>, t: nat) returns (h': Story<V>)
    requires h.Runs() && t in h.Last().pc && h.Last().pc[t] == LoadHead && h.Last().sh.head < |h.Last().sh.buffer|
    requires !h.Last().config.ReadsLock()
    ensures h'.Runs() && h'.states[0] == h.states[0]
    ensures h'.Last() == h.Last().(
                           sh := h.Last().sh.(buffer := MovedOut(h.Last().moved, h.Last().sh.buffer, h.Last().sh.head),
                                              head := Next(h.Last().config, h.Last().sh.head),
                                              count := h.Last().sh.count - 1, free := h.Last().sh.free + 1),
                           pc := h.Last().pc[t := Done(Got(h.Last().sh.buffer[h.Last().sh.head]))])
  {
    hide IsRun, Next, Enabled, SendNext, SendMemory, ReadNext, ReadMemory, MovedOut;
    var sh, pc, v := h.Last().sh, h.Last().pc, h.Last().sh.buffer[h.Last().sh.head];
    h' := LooksAtHead(h, t);
    h' := MovesHead(h', t, 0);
    Tallies.Again(pc, t, MoveHead(sh.head, 0), CasHead(sh.head, v, 0));
    h' := PassesHead(h', t, v, 0);
    Tallies.Again(pc, t, CasHead(sh.head, v, 0), Done(Got(v)));
  }

  lemma ReaderIsNotWarned<V>(h: Story<V>, t: nat, blocking: bool) returns (h': Story<V>)
    requires h.Runs() && t in h.Last().pc && h.Last().pc[t] == ReadProbe(blocking)
    requires RoleOf(h.Last().roles, t) == Consumer
    ensures h'.Runs() && h'.states[0] == h.states[0]
    ensures h'.Last() == h.Last().(
                           pc := h.Last().pc[t := if h.Last().config.category.MPMC? then ReadMode(blocking)
                                                  else if h.Last().config.ReadsLock() then ReadLock(blocking)
                                                  else ReadAcquire(blocking, false)])
  {
    hide IsRun, SendNext, SendMemory, IsEmpty, Holds, MovedOut, Next, Enabled, Apply;
    h' := Walk(h, t, h.Last().sh, if h.Last().config.category.MPMC? then ReadMode(blocking)
                                  else if h.Last().config.ReadsLock() then ReadLock(blocking)
                                  else ReadAcquire(blocking, false));
  }

  lemma ReadEnters<V>(h: Story<V>, t: nat, blocking: bool) returns (h': Story<V>)
    requires Fresh(h, t, if blocking then Read else TryRead)
    ensures h'.Runs() && h'.states[0] == h.states[0]
    ensures h'.Last() == h.Last().(
                           roles := h.Last().roles[t := Consumer],
                           pc := h.Last().pc[t := if h.Last().config.category.MPMC? then ReadMode(blocking)
                                                  else if h.Last().config.ReadsLock() then ReadLock(blocking)
                                                  else ReadAcquire(blocking, false)])
  {
    hide IsRun, MayBegin, IsEmpty, Enabled;
    var to := if h.Last().config.category.MPMC? then ReadMode(blocking)
              else if h.Last().config.ReadsLock() then ReadLock(blocking)
              else ReadAcquire(blocking, false);
    h' := Calls(h, t, if blocking then Read else TryRead);
    h' := ReaderIsNotWarned(h', t, blocking);
    Tallies.Again(h.Last().pc, t, ReadProbe(blocking), to);
  }

  /** A bounded MPSC send acquires its permit and the mutex. */
  lemma PermitAndLock<V>(h: Story<V>, t: nat, v: V, blocking: bool) returns (h': Story<V>)
    requires h.Runs() && t in h.Last().pc && h.Last().pc[t] == SendAcquire(v, blocking)
    requires h.Last().config.category.MPSC? && h.Last().config.overflow.Bounded?
    requires h.Last().sh.free > 0 && h.Last().sh.sendMutex == Free
    ensures h'.Runs() && h'.states[0] == h.states[0]
    ensures h'.Last() == h.Last().(sh := h.Last().sh.(free := h.Last().sh.free - 1, sendMutex := HeldBy(t)),
                                   pc := h.Last().pc[t := Admitted(v, blocking, NoTicket)])
  {
    hide IsRun, Admitted, ReadNext, ReadMemory;
    var sh, pc := h.Last().sh, h.Last().pc;
    h' := Walk(h, t, sh.(free := sh.free - 1), SendLock(v, blocking));
    h' := Walk(h', t, sh.(free := sh.free - 1, sendMutex := HeldBy(t)), Admitted(v, blocking, NoTicket));
    Tallies.Again(pc, t, SendLock(v, blocking), Admitted(v, blocking, NoTicket));
  }

  /** A try-send that finds the counter full gives back the mutex and the permit. */
  lemma Cancels<V>(h: Story<V>, t: nat, v: V) returns (h': Story<V>)
    requires h.Runs() && t in h.Last().pc && h.Last().pc[t] == SendCheck(v, NoTicket)
    requires h.Last().config.category.MPSC? && IsFull(h.Last().config, h.Last().sh)
    ensures h'.Runs() && h'.states[0] == h.states[0]
    ensures h'.Last() == h.Last().(sh := h.Last().sh.(free := h.Last().sh.free + 1, sendMutex := Free),
                                   pc := h.Last().pc[t := Done(Refused)])
  {
    hide IsRun, IsFull, ReadNext, ReadMemory;
    var sh, pc := h.Last().sh, h.Last().pc;
    h' := Walk(h, t, sh, SendCancelUnlock);
    h' := Walk(h', t, sh.(sendMutex := Free), SendCancelRelease);
    h' := Walk(h', t, sh.(free := sh.free + 1, sendMutex := Free), Done(Refused));
    Tallies.Again(pc, t, SendCancelUnlock, SendCancelRelease);
    Tallies.Again(pc, t, SendCancelRelease, Done(Refused));
  }

  /** A message that is copied stays as it was. */
  function Copied(): int -> int { v => v }

  const MPSC_RING: Config := Config(2, MPSC, NoException, Bounded)

  /** An MPSC ring whose first message is published and not yet counted. */
  lemma PublishedUncounted() returns (h: Story<int>)
    ensures h.Runs() && h.Last().config == MPSC_RING && h.Last().moved == Copied()
    ensures h.Last().sh == Shared(1, 1, Free, Free, 0, 1, [10, 0], 0, 0, 0, false)
    ensures h.Last().roles == map[0 := Producer]
    ensures h.Last().pc == map[0 := SendCount, 1 := Done(NoCall), 2 := Done(NoCall)]
  {
    hide IsRun, Enabled, SendNext, SendMemory, ReadNext, ReadMemory, Failed, Target, Memory, RolesAfter, Apply;
    var idle: map<nat, Pc<int>> := map[0 := Done(NoCall), 1 := Done(NoCall), 2 := Done(NoCall)];
    h := Begins(State(MPSC_RING, Copied(), Shared(2, 0, Free, Free, 0, 0, [0, 0], 0, 0, 0, false), map[], idle));
    h := SendEnters(h, 0, 10, true);
    h := PermitAndLock(h, 0, 10, true);
    h := StoresAtTail(h, 0, 10, true);
    h := Publishes(h, 0);
  }

  /** The message is read before its sender counts it: the counter is below zero. */
  lemma ReadBeforeCounted() returns (h: Story<int>)
    ensures h.Runs() && h.Last().config == MPSC_RING && h.Last().moved == Copied()
    ensures h.Last().sh == Shared(2, 0, Free, Free, 1, 1, [10, 0], -1, 0, 0, false)
    ensures h.Last().roles == map[0 := Producer, 1 := Consumer]
    ensures h.Last().pc == map[0 := SendCount, 1 := Done(Got(10)), 2 := Done(NoCall)]
  {
    hide IsRun, Enabled, SendNext, SendMemory, ReadNext, ReadMemory, Failed, Apply;
    hide Target, Memory, RolesAfter, SendGuard, Admitted, Published;
    h := PublishedUncounted();
    h := ReadEnters(h, 1, true);
    h := AcquiresMessage(h, 1);
    h := TakesAtHead(h, 1);
  }

  lemma AcquiresMessage<V>(h: Story<V>, t: nat) returns (h': Story<V>)
    requires h.Runs() && t in h.Last().pc && h.Last().pc[t] == ReadAcquire(true, false) && h.Last().sh.occupied > 0
    ensures h'.Runs() && h'.states[0] == h.states[0]
    ensures h'.Last() == h.Last().(sh := h.Last().sh.(occupied := h.Last().sh.occupied - 1),
                                   pc := h.Last().pc[t := LoadHead])
  {
    hide IsRun, SendNext, SendMemory;
    h' := Walk(h, t, h.Last().sh.(occupied := h.Last().sh.occupied - 1), LoadHead);
  }

  /** A try-send refused by an MPSC ring in which every slot is free and no message is unread. */
  lemma TrySendRefusedOnEmptyRing() returns (h: Story<int>)
    ensures h.Runs() && h.Last().config.category == MPSC && h.Last().config.overflow == Bounded
    ensures 2 in h.Last().pc && h.Last().pc[2] == Done(Refused)
    ensures h.Last().sh.free == h.Last().config.capacity && h.Last().sh.occupied == 0
  {
    hide IsRun, Enabled, SendNext, SendMemory, ReadNext, ReadMemory, Failed, Target, Memory, RolesAfter, Apply;
    h := ReadBeforeCounted();
    h := SendEnters(h, 2, 20, false);
    h := PermitAndLock(h, 2, 20, false);
    h := Cancels(h, 2, 20);
  }

  /** A bounded MPMC send up to its ticket. */
  lemma DrawsWriteTicket<V>(h: Story<V>, t: nat, v: V) returns (h': Story<V>)
    requires Fresh(h, t, Send(v)) && h.Last().config.Tickets() && h.Last().sh.free > 0 && !h.Last().sh.overwriteMode
    ensures h'.Runs() && h'.states[0] == h.states[0]
    ensures h'.Last() == h.Last().(
                           sh := h.Last().sh.(free := h.Last().sh.free - 1, writeSeq := h.Last().sh.writeSeq + 1),
                           roles := h.Last().roles[t := Producer],
                           pc := h.Last().pc[
                             t := LoadTail(v, Ticket(h.Last().sh.writeSeq % h.Last().config.capacity), true)])
  {
    hide IsRun, ReadNext, ReadMemory;
    var sh, pc := h.Last().sh, h.Last().pc;
    var to := LoadTail(v, Ticket(sh.writeSeq % h.Last().config.capacity), true);
    h' := Calls(h, t, Send(v));
    h' := Walk(h', t, sh, SetMode(v, true));
    h' := Walk(h', t, sh, SendAcquire(v, true));
    Tallies.Again(pc, t, SendProbe(v, true), SetMode(v, true));
    Tallies.Again(pc, t, SetMode(v, true), SendAcquire(v, true));
    h' := AcquiresTicket(h', t, v);
    Tallies.Again(pc, t, SendAcquire(v, true), to);
  }

  lemma AcquiresTicket<V>(h: Story<V>, t: nat, v: V) returns (h': Story<V>)
    requires h.Runs() && t in h.Last().pc && h.Last().pc[t] == SendAcquire(v, true)
    requires h.Last().config.Tickets() && h.Last().sh.free > 0
    ensures h'.Runs() && h'.states[0] == h.states[0]
    ensures h'.Last() == h.Last().(
                           sh := h.Last().sh.(free := h.Last().sh.free - 1, writeSeq := h.Last().sh.writeSeq + 1),
                           pc := h.Last().pc[
                             t := LoadTail(v, Ticket(h.Last().sh.writeSeq % h.Last().config.capacity), true)])
  {
    hide IsRun, ReadNext, ReadMemory;
    var sh, pc := h.Last().sh, h.Last().pc;
    var to := LoadTail(v, Ticket(sh.writeSeq % h.Last().config.capacity), true);
    h' := Walk(h, t, sh.(free := sh.free - 1), SendTicket(v, true));
    h' := Walk(h', t, sh.(free := sh.free - 1, writeSeq := sh.writeSeq + 1), to);
    Tallies.Again(pc, t, SendTicket(v, true), to);
  }

  /** WriteTail at the ticket's slot leaves the tail alone. */
  lemma StoresAtTicket<V>(h: Story<V>, t: nat, v: V, k: nat) returns (h': Story<V>)
    requires h.Runs() && t in h.Last().pc && h.Last().pc[t] == LoadTail(v, Ticket(k), true) && k < |h.Last().sh.buffer|
    ensures h'.Runs() && h'.states[0] == h.states[0]
    ensures h'.Last() == h.Last().(sh := h.Last().sh.(buffer := h.Last().sh.buffer[k := v]),
                                   pc := h.Last().pc[t := SendRelease])
  {
    hide IsRun, ReadNext, ReadMemory, Alarm, IsFull, Next, Enabled, Apply;
    var sh, pc := h.Last().sh, h.Last().pc;
    h' := Walk(h, t, sh, WriteSlot(v, k, Ticket(k), true));
    h' := Walk(h', t, sh.(buffer := sh.buffer[k := v]), SendRelease);
    Tallies.Again(pc, t, WriteSlot(v, k, Ticket(k), true), SendRelease);
  }

  /** A read of a ring with tickets gets its permit. */
  lemma AcquiresForTicket<V>(h: Story<V>, t: nat, blocking: bool) returns (h': Story<V>)
    requires h.Runs() && t in h.Last().pc && h.Last().pc[t] == ReadMode(blocking)
    requires h.Last().sh.occupied > 0 && !h.Last().sh.overwriteMode
    ensures h'.Runs() && h'.states[0] == h.states[0]
    ensures h'.Last() == h.Last().(sh := h.Last().sh.(occupied := h.Last().sh.occupied - 1),
                                   pc := h.Last().pc[t := ReadTicket(blocking)])
  {
    hide IsRun, SendNext, SendMemory, Holds, Alarm, IsEmpty, MovedOut, Next, Enabled, Apply;
    var sh, pc := h.Last().sh, h.Last().pc;
    h' := Walk(h, t, sh, ReadAcquire(blocking, true));
    h' := Walk(h', t, sh.(occupied := sh.occupied - 1), ReadTicket(blocking));
    Tallies.Again(pc, t, ReadAcquire(blocking, true), ReadTicket(blocking));
  }

  lemma TakesTicket<V>(h: Story<V>, t: nat, blocking: bool) returns (h': Story<V>)
    requires h.Runs() && t in h.Last().pc && h.Last().pc[t] == ReadTicket(blocking)
    ensures h'.Runs() && h'.states[0] == h.states[0]
    ensures h'.Last() == h.Last().(
                           sh := h.Last().sh.(readSeq := h.Last().sh.readSeq + 1),
                           pc := h.Last().pc[
                             t := Holds(blocking, Ticket(h.Last().sh.readSeq % h.Last().config.capacity))])
  {
    hide IsRun, SendNext, SendMemory, Holds, Alarm, IsEmpty, MovedOut, Next, Enabled, Apply;
    var sh := h.Last().sh;
    h' := Walk(h, t, sh.(readSeq := sh.readSeq + 1),
               Holds<V>(blocking, Ticket(sh.readSeq % h.Last().config.capacity)));
  }

  /** A bounded MPMC read up to its ticket. */
  lemma DrawsReadTicket<V>(h: Story<V>, t: nat, blocking: bool) returns (h': Story<V>)
    requires h.Runs() && t in h.Last().pc && h.Last().pc[t] == ReadMode(blocking)
    requires h.Last().sh.occupied > 0 && !h.Last().sh.overwriteMode
    ensures h'.Runs() && h'.states[0] == h.states[0]
    ensures h'.Last() == h.Last().(
                           sh := h.Last().sh.(occupied := h.Last().sh.occupied - 1, readSeq := h.Last().sh.readSeq + 1),
                           pc := h.Last().pc[
                             t := Holds(blocking, Ticket(h.Last().sh.readSeq % h.Last().config.capacity))])
  {
    hide IsRun, Holds;
    var to := Holds<V>(blocking, Ticket(h.Last().sh.readSeq % h.Last().config.capacity));
    h' := AcquiresForTicket(h, t, blocking);
    h' := TakesTicket(h', t, blocking);
    Tallies.Again(h.Last().pc, t, ReadTicket(blocking), to);
  }

  /** A try-read that finds the counter at zero gives its permit back, but not its ticket. */
  lemma ReadCancels<V>(h: Story<V>, t: nat, slot: Slot) returns (h': Story<V>)
    requires h.Runs() && t in h.Last().pc && h.Last().pc[t] == ReadCheck(slot)
    requires h.Last().config.category.MPMC? && IsEmpty(h.Last().sh)
    ensures h'.Runs() && h'.states[0] == h.states[0]
    ensures h'.Last() == h.Last().(sh := h.Last().sh.(occupied := h.Last().sh.occupied + 1),
                                   pc := h.Last().pc[t := Done(Nothing)])
  {
    hide IsRun, IsEmpty, SendNext, SendMemory, Alarm, Holds, MovedOut, Next, Enabled, Apply;
    var sh, pc := h.Last().sh, h.Last().pc;
    h' := Walk(h, t, sh, ReadCancelRelease);
    h' := Walk(h', t, sh.(occupied := sh.occupied + 1), Done(Nothing));
    Tallies.Again(pc, t, ReadCancelRelease, Done(Nothing));
  }

  lemma TakesAtTicket<V>(h: Story<V>, t: nat, k: nat) returns (h': Story<V>)
    requires h.Runs() && t in h.Last().pc && h.Last().pc[t] == ReadSlot(k) && k < |h.Last().sh.buffer|
    requires h.Last().config.category.MPMC?
    ensures h'.Runs() && h'.states[0] == h.states[0]
    ensures h'.Last() == h.Last().(
                           sh := h.Last().sh.(buffer := MovedOut(h.Last().moved, h.Last().sh.buffer, k),
                                              count := h.Last().sh.count - 1, free := h.Last().sh.free + 1),
                           pc := h.Last().pc[t := Done(Got(h.Last().sh.buffer[k]))])
  {
    hide IsRun, SendNext, SendMemory;
    var sh, v := h.Last().sh, h.Last().sh.buffer[k];
    h' := Walk(h, t, sh.(buffer := MovedOut(h.Last().moved, sh.buffer, k)), ReadCount(v));
    h' := Returns(h', t, v);
    Tallies.Again(h.Last().pc, t, ReadCount(v), Done(Got(v)));
  }

  const MPMC_RING: Config := Config(2, MPMC, NoException, Bounded)

  /** The first of three fresh threads of an MPMC ring, whose slots hold junk, draws a ticket for 10. */
  lemma FirstTicketDrawn(junk: int) returns (h: Story<int>)
    ensures h.Runs() && h.Last().config == MPMC_RING && h.Last().moved == Copied()
    ensures h.Last().sh == Shared(1, 0, Free, Free, 0, 0, [junk, junk], 0, 1, 0, false)
    ensures h.Last().roles == map[0 := Producer]
    ensures h.Last().pc == map[0 := LoadTail(10, Ticket(0), true), 1 := Done(NoCall), 2 := Done(NoCall)]
  {
    hide IsRun, Enabled, SendNext, SendMemory, ReadNext, ReadMemory, Failed, Target, Memory, RolesAfter, Apply;
    var idle: map<nat, Pc<int>> := map[0 := Done(NoCall), 1 := Done(NoCall), 2 := Done(NoCall)];
    h := Begins(State(MPMC_RING, Copied(), Shared(2, 0, Free, Free, 0, 0, [junk, junk], 0, 0, 0, false), map[], idle));
    h := DrawsWriteTicket(h, 0, 10);
  }

  /** It publishes 10. */
  lemma TicketPublished(junk: int) returns (h: Story<int>)
    ensures h.Runs() && h.Last().config == MPMC_RING && h.Last().moved == Copied()
    ensures h.Last().sh == Shared(1, 1, Free, Free, 0, 0, [10, junk], 0, 1, 0, false)
    ensures h.Last().roles == map[0 := Producer]
    ensures h.Last().pc == map[0 := SendCount, 1 := Done(NoCall), 2 := Done(NoCall)]
  {
    hide IsRun, Enabled, SendNext, SendMemory, ReadNext, ReadMemory, Failed, Target, Memory, RolesAfter, Apply;
    h := FirstTicketDrawn(junk);
    h := StoresAtTicket(h, 0, 10, 0);
    h := Publishes(h, 0);
  }

  /** A try-read draws ticket 0 before the count. */
  lemma EarlyTicketDrawn(junk: int) returns (h: Story<int>)
    ensures h.Runs() && h.Last().config == MPMC_RING && h.Last().moved == Copied()
    ensures h.Last().sh == Shared(1, 0, Free, Free, 0, 0, [10, junk], 0, 1, 1, false)
    ensures h.Last().roles == map[0 := Producer, 1 := Consumer]
    ensures h.Last().pc == map[0 := SendCount, 1 := ReadCheck(Ticket(0)), 2 := Done(NoCall)]
  {
    hide IsRun, Enabled, SendNext, SendMemory, ReadNext, ReadMemory, Failed, Target, Memory, RolesAfter, Apply;
    h := TicketPublished(junk);
    h := ReadEnters(h, 1, false);
    h := DrawsReadTicket(h, 1, false);
  }

  /** It burns the ticket, and the message is counted. */
  lemma TicketBurnt(junk: int) returns (h: Story<int>)
    ensures h.Runs() && h.Last().config == MPMC_RING && h.Last().moved == Copied()
    ensures h.Last().sh == Shared(1, 1, Free, Free, 0, 0, [10, junk], 1, 1, 1, false)
    ensures h.Last().roles == map[0 := Producer, 1 := Consumer]
    ensures h.Last().pc == map[0 := Done(Sent), 1 := Done(Nothing), 2 := Done(NoCall)]
  {
    hide IsRun, Enabled, SendNext, SendMemory, ReadNext, ReadMemory, Failed, Target, Memory, RolesAfter, Apply;
    h := EarlyTicketDrawn(junk);
    h := ReadCancels(h, 1, Ticket(0));
    h := Counts(h, 0);
  }

  /** A bounded MPMC ring to which only the message 10 was sent, and whose only successful read returns what the
      next slot held from the start. */
  lemma BurntTicketReadsJunk(junk: int) returns (h: Story<int>)
    ensures h.Runs() && h.Last().config == MPMC_RING && h.Last().moved == Copied()
    ensures h.Last().pc == map[0 := Done(Sent), 1 := Done(Nothing), 2 := Done(Got(junk))]
    ensures h.Last().sh.count == 0 && h.Last().sh.buffer == [10, junk]
  {
    hide IsRun, Enabled, SendNext, SendMemory, ReadNext, ReadMemory, Failed, Target, Memory, RolesAfter, Apply;
    h := TicketBurnt(junk);
    h := ReadEnters(h, 2, true);
    h := DrawsReadTicket(h, 2, true);
    h := TakesAtTicket(h, 2, 1);
  }

  /** The two sends overlap: the second to draw a ticket publishes first. */
  lemma SecondTicketPublished(junk: int) returns (h: Story<int>)
    ensures h.Runs() && h.Last().config == MPMC_RING && h.Last().moved == Copied()
    ensures h.Last().sh == Shared(0, 1, Free, Free, 0, 0, [junk, 20], 1, 2, 0, false)
    ensures h.Last().roles == map[0 := Producer, 1 := Producer]
    ensures h.Last().pc == map[0 := LoadTail(10, Ticket(0), true), 1 := Done(Sent), 2 := Done(NoCall)]
  {
    hide IsRun, Enabled, SendNext, SendMemory, ReadNext, ReadMemory, Failed, Target, Memory, RolesAfter, Apply;
    h := FirstTicketDrawn(junk);
    h := DrawsWriteTicket(h, 1, 20);
    h := SecondStores(h);
  }

  lemma SecondStores(h: Story<int>) returns (h': Story<int>)
    requires h.Runs() && h.Last().config == MPMC_RING && 1 in h.Last().pc && |h.Last().sh.buffer| == 2
    requires h.Last().pc[1] == LoadTail(20, Ticket(1), true)
    ensures h'.Runs() && h'.states[0] == h.states[0]
    ensures h'.Last() == h.Last().(
                           sh := h.Last().sh.(buffer := h.Last().sh.buffer[1 := 20],
                                              occupied := h.Last().sh.occupied + 1, count := h.Last().sh.count + 1),
                           pc := h.Last().pc[1 := Done(Sent)])
  {
    hide IsRun, Enabled, SendNext, SendMemory, ReadNext, ReadMemory, Failed, Target, Memory, RolesAfter, Apply;
    h' := StoresAtTicket(h, 1, 20, 1);
    h' := Publishes(h', 1);
    Tallies.Again(h.Last().pc, 1, SendRelease, SendCount);
    h' := Counts(h', 1);
    Tallies.Again(h.Last().pc, 1, SendCount, Done(Sent));
  }

  /** Overlapping sends alone, with no try form, make a bounded MPMC read return what its slot held from the
      start: the permit of ticket 1 lets a read in that draws ticket 0, whose sender has not written yet. */
  lemma OverlappingSendsReadJunk(junk: int) returns (h: Story<int>)
    ensures h.Runs() && h.Last().config == MPMC_RING
    ensures h.Last().pc == map[0 := LoadTail(10, Ticket(0), true), 1 := Done(Sent), 2 := Done(Got(junk))]
  {
    hide IsRun, Enabled, SendNext, SendMemory, ReadNext, ReadMemory, Failed, Target, Memory, RolesAfter, Apply;
    h := SecondTicketPublished(junk);
    h := ReadEnters(h, 2, true);
    h := DrawsReadTicket(h, 2, true);
    h := TakesAtTicket(h, 2, 0);
  }

  const MOVED_RING: Config := Config(1, SPSC, NoException, Bounded)

  /** A message that is moved out of leaves zero behind. */
  function Emptied(): int -> int { v => 0 }

  lemma OneSendAdmitted() returns (h: Story<int>)
    ensures h.Runs() && h.Last().config == MOVED_RING && h.Last().moved == Emptied()
    ensures h.Last().sh == Shared(0, 0, Free, Free, 0, 0, [5], 0, 0, 0, false)
    ensures h.Last().roles == map[0 := Producer]
    ensures h.Last().pc == map[0 := LoadTail(10, NoTicket, true), 1 := Done(NoCall)]
  {
    hide IsRun, Enabled, SendNext, SendMemory, ReadNext, ReadMemory, Failed, Target, Memory, RolesAfter, Apply;
    var idle: map<nat, Pc<int>> := map[0 := Done(NoCall), 1 := Done(NoCall)];
    h := Begins(State(MOVED_RING, Emptied(), Shared(1, 0, Free, Free, 0, 0, [5], 0, 0, 0, false), map[], idle));
    h := SendEnters(h, 0, 10, true);
    h := AcquiresPermit(h, 0, 10);
  }

  lemma OneMessageIn() returns (h: Story<int>)
    ensures h.Runs() && h.Last().config == MOVED_RING && h.Last().moved == Emptied()
    ensures h.Last().sh == Shared(0, 1, Free, Free, 0, 0, [10], 0, 0, 0, false)
    ensures h.Last().roles == map[0 := Producer] && h.Last().pc == map[0 := SendCount, 1 := Done(NoCall)]
  {
    hide IsRun, Enabled, SendNext, SendMemory, ReadNext, ReadMemory, Failed, Target, Memory, RolesAfter, Apply;
    h := OneSendAdmitted();
    h := StoresAtTail(h, 0, 10, true);
    h := Publishes(h, 0);
  }

  lemma AcquiresPermit<V>(h: Story<V>, t: nat, v: V) returns (h': Story<V>)
    requires h.Runs() && t in h.Last().pc && h.Last().pc[t] == SendAcquire(v, true)
    requires h.Last().config.category.SPSC? && h.Last().sh.free > 0
    ensures h'.Runs() && h'.states[0] == h.states[0]
    ensures h'.Last() == h.Last().(sh := h.Last().sh.(free := h.Last().sh.free - 1),
                                   pc := h.Last().pc[t := LoadTail(v, NoTicket, true)])
  {
    hide IsRun, ReadNext, ReadMemory;
    h' := Walk(h, t, h.Last().sh.(free := h.Last().sh.free - 1), LoadTail(v, NoTicket, true));
  }

  /** The compare-and-swap of a read fails without cause, and the read moves out of the same slot again. */
  lemma LosesRace<V>(h: Story<V>, t: nat, v: V, lost: nat) returns (h': Story<V>)
    requires h.Runs() && t in h.Last().pc && h.Last().pc[t] == CasHead(h.Last().sh.head, v, lost)
    ensures h'.Runs() && h'.states[0] == h.states[0]
    ensures h'.Last() == h.Last().(pc := h.Last().pc[t := MoveHead(h.Last().sh.head, lost + 1)])
  {
    hide IsRun, SendNext, SendMemory, ReadNext, ReadMemory;
    h' := Stumble(h, Weak(t));
  }

  lemma ReaderAtHead() returns (h: Story<int>)
    ensures h.Runs() && h.Last().config == MOVED_RING && h.Last().moved == Emptied()
    ensures h.Last().sh == Shared(0, 0, Free, Free, 0, 0, [10], 0, 0, 0, false)
    ensures h.Last().pc == map[0 := SendCount, 1 := MoveHead(0, 0)]
  {
    hide IsRun, Enabled, SendNext, SendMemory, ReadMemory, Failed, Target, Memory, RolesAfter, MovedOut;
    h := OneMessageIn();
    h := ReadEnters(h, 1, true);
    h := AcquiresMessage(h, 1);
    h := LooksAtHead(h, 1);
  }

  lemma ReadsOnceMoved() returns (h: Story<int>)
    ensures h.Runs() && h.Last().config == MOVED_RING && h.Last().moved == Emptied()
    ensures h.Last().sh == Shared(0, 0, Free, Free, 0, 0, [0], 0, 0, 0, false)
    ensures h.Last().pc == map[0 := SendCount, 1 := MoveHead(0, 1)]
  {
    hide IsRun, Enabled, SendNext, SendMemory, ReadNext, ReadMemory, Failed, Target, Memory, RolesAfter;
    h := ReaderAtHead();
    h := MovesHead(h, 1, 0);
    h := LosesRace(h, 1, 10, 0);
  }

  /** One spurious failure loses a message that is moved: the queue held 10, and its only read returns what the
      first move left behind. */
  lemma SpuriousFailureLosesMessage() returns (h: Story<int>)
    ensures h.Runs() && h.Last().config == MOVED_RING
    ensures h.Last().pc == map[0 := SendCount, 1 := Done(Got(0))]
  {
    hide IsRun, Enabled, SendNext, SendMemory, ReadNext, ReadMemory, Failed, Target, Memory, RolesAfter, Apply;
    h := ReadsOnceMoved();
    h := MovesHead(h, 1, 1);
    h := PassesHead(h, 1, 0, 1);
  }
}
