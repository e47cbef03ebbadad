/** One call of a circular queue running alone, the other threads paused wherever they are. */
module RingSolo {
  import opened Roles
  import opened Ring

  // s is the state with the roles of the call; a lemma takes the run from one control state of t to a later one.

  /** h goes on from h0 by steps of t alone, without another call. */
  ghost predicate Alone<V>(h0: Story<V>, h: Story<V>, t: nat) {
    && |h0.labels| <= |h.labels| && h.labels[..|h0.labels|] == h0.labels
    && forall k | |h0.labels| <= k < |h.labels| :: h.labels[k].t == t && !h.labels[k].Begin?
  }

  ghost predicate At<V>(h0: Story<V>, h: Story<V>, s: State<V>, t: nat, sh: Shared<V>, pc: Pc<V>) {
    h.Runs() && t in s.pc && h.Last() == s.(sh := sh, pc := s.pc[t := pc]) && Alone(h0, h, t)
  }

  /** The step of t at pc leads here when it goes through. */
  ghost predicate Leads<V>(s: State<V>, t: nat, sh: Shared<V>, pc: Pc<V>, sh': Shared<V>, to: Pc<V>) {
    var now := s.(sh := sh, pc := s.pc[t := pc]);
    if Sending(pc) then SendMemory(s.config, sh, t, pc) == sh' && SendNext(now, t) == to
    else ReadMemory(s.config, s.moved, sh, t, pc) == sh' && ReadNext(now, t) == to
  }

  lemma Extends<V>(h0: Story<V>, h: Story<V>, l: Label<V>) returns (h': Story<V>)
    requires h.Runs() && Alone(h0, h, l.t) && Enabled(h.Last(), l) && !l.Begin?
    ensures h'.Runs() && Alone(h0, h', l.t) && h'.Last() == Apply(h.Last(), l) && h'.labels == h.labels + [l]
  {
    hide IsRun, Enabled, Apply;
    h' := Advance(h, l);
  }

  lemma Goes<V>(h0: Story<V>, h: Story<V>, s: State<V>, t: nat, sh: Shared<V>, pc: Pc<V>, sh': Shared<V>, to: Pc<V>)
    returns (h': Story<V>)
    requires At(h0, h, s, t, sh, pc) && !pc.Done? && Available(sh, pc) && Leads(s, t, sh, pc, sh', to)
    ensures At(h0, h', s, t, sh', to)
  {
    hide IsRun, SendMemory, SendNext, ReadMemory, ReadNext, Sending, Available, Alone;
    h' := Extends(h0, h, Step(t));
    assert s.pc[t := pc][t := to] == s.pc[t := to];
  }

  /** A try or a compare-and-swap that fails, for want of what it asks for or without cause. */
  lemma FailsTo<V>(h0: Story<V>, h: Story<V>, s: State<V>, t: nat, sh: Shared<V>, pc: Pc<V>, to: Pc<V>)
    returns (h': Story<V>)
    requires At(h0, h, s, t, sh, pc) && !pc.Done? && CanFail(s.config, pc)
    requires Failed(s.(sh := sh, pc := s.pc[t := pc]), t) == to
    ensures At(h0, h', s, t, sh, to)
  {
    hide IsRun, SendMemory, SendNext, ReadMemory, ReadNext, Sending, Alone, Failed, CanFail, Available;
    h' := Extends(h0, h, if Available(sh, pc) then Weak(t) else Step(t));
    assert s.pc[t := pc][t := to] == s.pc[t := to];
  }

  // Sends.

  /** WriteTail. */
  lemma WritesSlot<V>(h0: Story<V>, h: Story<V>, s: State<V>, t: nat, sh: Shared<V>, v: V, slot: Slot, notify: bool,
                      k: nat)
    returns (h': Story<V>)
    requires At(h0, h, s, t, sh, LoadTail(v, slot, notify)) && k < |sh.buffer|
    requires k == if slot.Ticket? then slot.index else sh.tail
    ensures At(h0, h', s, t,
               sh.(buffer := sh.buffer[k := v], tail := if slot.Ticket? then sh.tail else Next(s.config, k)),
               Published(s.config, notify))
  {
    hide IsRun, Alone, At, Published, Next, ReadNext, ReadMemory, Alarm, IsFull;
    var written := sh.(buffer := sh.buffer[k := v]);
    h' := Goes(h0, h, s, t, sh, LoadTail(v, slot, notify), sh, WriteSlot(v, k, slot, notify));
    if slot.Ticket? {
      h' := Goes(h0, h', s, t, sh, WriteSlot(v, k, slot, notify), written, Published(s.config, notify));
    } else {
      h' := Goes(h0, h', s, t, sh, WriteSlot(v, k, slot, notify), written, SetTail(v, k, notify));
      h' := Goes(h0, h', s, t, written, SetTail(v, k, notify), written.(tail := Next(s.config, k)),
                 Published(s.config, notify));
    }
  }

  /** The guard's destructor and the counter. */
  lemma Publishes<V>(h0: Story<V>, h: Story<V>, s: State<V>, t: nat, sh: Shared<V>, notify: bool) returns (h': Story<V>)
    requires At(h0, h, s, t, sh, Published(s.config, notify))
    ensures At(h0, h', s, t, sh.(occupied := if notify then sh.occupied + 1 else sh.occupied,
                                 sendMutex := if s.config.SendsLock() then Free else sh.sendMutex,
                                 count := sh.count + 1), Done(Sent))
  {
    hide IsRun, Alone, At, ReadNext, ReadMemory, Alarm, IsFull, Next;
    h' := h;
    var now := sh;
    if notify {
      now := sh.(occupied := sh.occupied + 1);
      h' := Goes(h0, h, s, t, sh, SendRelease, now, if s.config.SendsLock() then SendUnlock else SendCount);
    }
    h' := UnlocksAndCounts(h0, h', s, t, now);
  }

  lemma UnlocksAndCounts<V>(h0: Story<V>, h: Story<V>, s: State<V>, t: nat, sh: Shared<V>) returns (h': Story<V>)
    requires At(h0, h, s, t, sh, if s.config.SendsLock() then SendUnlock else SendCount)
    ensures At(h0, h', s, t, sh.(sendMutex := if s.config.SendsLock() then Free else sh.sendMutex,
                                 count := sh.count + 1), Done(Sent))
  {
    hide IsRun, Alone, At, ReadNext, ReadMemory, Alarm, IsFull, Next;
    h' := h;
    var now := sh;
    if s.config.SendsLock() {
      now := sh.(sendMutex := Free);
      h' := Goes(h0, h, s, t, sh, SendUnlock, now, SendCount);
    }
    h' := Goes(h0, h', s, t, now, SendCount, now.(count := now.count + 1), Done(Sent));
  }

  /** A bounded send gets its permit, the mutex of the category, and its ticket. */
  lemma Acquires<V>(h0: Story<V>, h: Story<V>, s: State<V>, t: nat, sh: Shared<V>, v: V, blocking: bool)
    returns (h': Story<V>)
    requires At(h0, h, s, t, sh, SendAcquire(v, blocking)) && s.config.overflow.Bounded?
    requires sh.free > 0 && (s.config.SendsLock() ==> sh.sendMutex == Free)
    ensures At(h0, h', s, t,
               sh.(free := sh.free - 1, sendMutex := if s.config.SendsLock() then HeldBy(t) else sh.sendMutex,
                   writeSeq := if s.config.Tickets() then sh.writeSeq + 1 else sh.writeSeq),
               Admitted(v, blocking, TicketFor(s.config, sh.writeSeq)))
  {
    hide IsRun, Alone, At, ReadNext, ReadMemory, Alarm, IsFull, Admitted;
    var granted, to := sh.(free := sh.free - 1), Admitted(v, blocking, TicketFor(s.config, sh.writeSeq));
    if s.config.SendsLock() {
      h' := Goes(h0, h, s, t, sh, SendAcquire(v, blocking), granted, SendLock(v, blocking));
      h' := Goes(h0, h', s, t, granted, SendLock(v, blocking), granted.(sendMutex := HeldBy(t)), to);
    } else if s.config.Tickets() {
      h' := Goes(h0, h, s, t, sh, SendAcquire(v, blocking), granted, SendTicket(v, blocking));
      h' := Goes(h0, h', s, t, granted, SendTicket(v, blocking), granted.(writeSeq := sh.writeSeq + 1), to);
    } else {
      h' := Goes(h0, h, s, t, sh, SendAcquire(v, blocking), granted, to);
    }
  }

  /** The slot that a sequence number stands for, in a ring that hands out tickets. */
  function TicketFor(c: Config, n: nat): Slot { if c.Tickets() then Ticket(n % c.capacity) else NoTicket }

  /** The second look of a try-send at a counter that is not full. */
  lemma LooksAgain<V>(h0: Story<V>, h: Story<V>, s: State<V>, t: nat, sh: Shared<V>, v: V, blocking: bool, slot: Slot)
    returns (h': Story<V>)
    requires At(h0, h, s, t, sh, Admitted(v, blocking, slot)) && !IsFull(s.config, sh)
    ensures At(h0, h', s, t, sh, LoadTail(v, slot, true))
  {
    hide IsRun, Alone, At, ReadNext, ReadMemory, Alarm, IsFull;
    h' := h;
    if !blocking { h' := Goes(h0, h, s, t, sh, SendCheck(v, slot), sh, LoadTail(v, slot, true)); }
  }

  /** The credit of a send that drops: a permit if there is one and the try does not fail. */
  lemma TakesCredit<V>(h0: Story<V>, h: Story<V>, s: State<V>, t: nat, sh: Shared<V>, v: V, fails: bool)
    returns (h': Story<V>)
    requires At(h0, h, s, t, sh, SendCredit(v))
    ensures At(h0, h', s, t, if sh.free > 0 && !fails then sh.(free := sh.free - 1) else sh, DropFull(v))
  {
    hide IsRun, Alone, At, ReadNext, ReadMemory, Alarm, IsFull;
    if sh.free > 0 && !fails {
      h' := Goes(h0, h, s, t, sh, SendCredit(v), sh.(free := sh.free - 1), DropFull(v));
    } else {
      h' := FailsTo(h0, h, s, t, sh, SendCredit(v), DropFull(v));
    }
  }

  /** A ring that is not full needs no drop. */
  lemma NeedsNoDrop<V>(h0: Story<V>, h: Story<V>, s: State<V>, t: nat, sh: Shared<V>, v: V) returns (h': Story<V>)
    requires At(h0, h, s, t, sh, DropFull(v)) && !IsFull(s.config, sh)
    ensures At(h0, h', s, t, sh, LoadTail(v, NoTicket, true))
  {
    hide IsRun, Alone, At, ReadNext, ReadMemory, Alarm, IsFull;
    h' := Goes(h0, h, s, t, sh, DropFull(v), sh, LoadTail(v, NoTicket, true));
  }

  lemma StartsDrop<V>(h0: Story<V>, h: Story<V>, s: State<V>, t: nat, sh: Shared<V>, v: V) returns (h': Story<V>)
    requires At(h0, h, s, t, sh, DropFull(v)) && IsFull(s.config, sh)
    ensures At(h0, h', s, t, sh, DropTest(v, sh.head, 0))
  {
    hide IsRun, Alone, At, ReadNext, ReadMemory, Alarm, IsFull;
    h' := Goes(h0, h, s, t, sh, DropFull(v), sh, DropLoad(v));
    h' := Goes(h0, h', s, t, sh, DropLoad(v), sh, DropTest(v, sh.head, 0));
  }

  /** A round of the drop loop whose compare-and-swap fails without cause. */
  lemma LosesDrop<V>(h0: Story<V>, h: Story<V>, s: State<V>, t: nat, sh: Shared<V>, v: V, attempt: nat)
    returns (h': Story<V>)
    requires At(h0, h, s, t, sh, DropTest(v, sh.head, attempt)) && IsFull(s.config, sh) && attempt < DROP_ATTEMPTS
    ensures At(h0, h', s, t, sh, DropTest(v, sh.head, attempt + 1))
  {
    hide IsRun, Alone, At, ReadNext, ReadMemory, Alarm, IsFull;
    h' := Goes(h0, h, s, t, sh, DropTest(v, sh.head, attempt), sh, DropCas(v, sh.head, attempt));
    h' := FailsTo(h0, h', s, t, sh, DropCas(v, sh.head, attempt), DropTest(v, sh.head, attempt + 1));
  }

  lemma LosesDrops<V>(h0: Story<V>, h: Story<V>, s: State<V>, t: nat, sh: Shared<V>, v: V, rounds: nat)
    returns (h': Story<V>)
    requires At(h0, h, s, t, sh, DropTest(v, sh.head, 0)) && IsFull(s.config, sh) && rounds <= DROP_ATTEMPTS
    ensures At(h0, h', s, t, sh, DropTest(v, sh.head, rounds))
  {
    hide IsFull, At;
    h' := h;
    for i := 0 to rounds
      invariant At(h0, h', s, t, sh, DropTest(v, sh.head, i))
    {
      h' := LosesDrop(h0, h', s, t, sh, v, i);
    }
  }

  /** The round that drops. */
  lemma Drops<V>(h0: Story<V>, h: Story<V>, s: State<V>, t: nat, sh: Shared<V>, v: V, attempt: nat)
    returns (h': Story<V>)
    requires At(h0, h, s, t, sh, DropTest(v, sh.head, attempt)) && IsFull(s.config, sh) && attempt < DROP_ATTEMPTS
    ensures At(h0, h', s, t, sh.(head := Next(s.config, sh.head), count := sh.count - 1), LoadTail(v, NoTicket, false))
  {
    hide IsRun, Alone, At, ReadNext, ReadMemory, Alarm, IsFull, Next;
    var moved := sh.(head := Next(s.config, sh.head));
    h' := Goes(h0, h, s, t, sh, DropTest(v, sh.head, attempt), sh, DropCas(v, sh.head, attempt));
    h' := Goes(h0, h', s, t, sh, DropCas(v, sh.head, attempt), moved, DropSub(v));
    h' := Goes(h0, h', s, t, moved, DropSub(v), moved.(count := sh.count - 1), LoadTail(v, NoTicket, false));
  }

  lemma GivesUpDropping<V>(h0: Story<V>, h: Story<V>, s: State<V>, t: nat, sh: Shared<V>, v: V) returns (h': Story<V>)
    requires At(h0, h, s, t, sh, DropTest(v, sh.head, DROP_ATTEMPTS))
    ensures At(h0, h', s, t, sh, LoadTail(v, NoTicket, true))
  {
    hide IsRun, Alone, At, ReadNext, ReadMemory, Alarm, IsFull;
    h' := Goes(h0, h, s, t, sh, DropTest(v, sh.head, DROP_ATTEMPTS), sh, LoadTail(v, NoTicket, true));
  }

  // Reads.

  /** The control state behind the probe of a read. */
  function ReadGuard<V>(s: State<V>, sh: Shared<V>, blocking: bool): Pc<V> {
    if s.config.ReadsLock() then ReadLock(blocking)
    else ReadAcquire(blocking, s.config.category.MPMC? && !sh.overwriteMode)
  }

  /** The mutex of the category, where there is one. */
  lemma LocksForReading<V>(h0: Story<V>, h: Story<V>, s: State<V>, t: nat, sh: Shared<V>, blocking: bool)
    returns (h': Story<V>)
    requires At(h0, h, s, t, sh, ReadGuard(s, sh, blocking)) && sh.readMutex == Free
    ensures At(h0, h', s, t, if s.config.ReadsLock() then sh.(readMutex := HeldBy(t)) else sh,
               ReadAcquire(blocking, s.config.category.MPMC? && !sh.overwriteMode))
  {
    hide IsRun, Alone, At, SendNext, SendMemory, Alarm, IsEmpty;
    h' := h;
    if s.config.ReadsLock() {
      h' := Goes(h0, h, s, t, sh, ReadLock(blocking), sh.(readMutex := HeldBy(t)), ReadAcquire(blocking, false));
    }
  }

  /** The permit, and the ticket where the ring hands them out. */
  lemma AcquiresMessage<V>(h0: Story<V>, h: Story<V>, s: State<V>, t: nat, sh: Shared<V>, blocking: bool, tickets: bool)
    returns (h': Story<V>)
    requires At(h0, h, s, t, sh, ReadAcquire(blocking, tickets)) && sh.occupied > 0
    ensures At(h0, h', s, t,
               sh.(occupied := sh.occupied - 1, readSeq := if tickets then sh.readSeq + 1 else sh.readSeq),
               Holds(blocking, if tickets then Ticket(sh.readSeq % s.config.capacity) else NoTicket))
  {
    hide IsRun, Alone, At, SendNext, SendMemory, Alarm, IsEmpty, Holds;
    var granted := sh.(occupied := sh.occupied - 1);
    if tickets {
      h' := Goes(h0, h, s, t, sh, ReadAcquire(blocking, true), granted, ReadTicket(blocking));
      h' := Goes(h0, h', s, t, granted, ReadTicket(blocking), granted.(readSeq := sh.readSeq + 1),
                 Holds(blocking, Ticket(sh.readSeq % s.config.capacity)));
    } else {
      h' := Goes(h0, h, s, t, sh, ReadAcquire(blocking, false), granted, Holds(blocking, NoTicket));
    }
  }

  /** The second look of a try-read at a counter that is not zero. */
  lemma SeesMessage<V>(h0: Story<V>, h: Story<V>, s: State<V>, t: nat, sh: Shared<V>, blocking: bool, slot: Slot)
    returns (h': Story<V>)
    requires At(h0, h, s, t, sh, Holds(blocking, slot)) && !IsEmpty(sh)
    ensures At(h0, h', s, t, sh, Holds(true, slot))
  {
    hide IsRun, Alone, At, SendNext, SendMemory, Alarm, IsEmpty;
    h' := h;
    if !blocking { h' := Goes(h0, h, s, t, sh, ReadCheck(slot), sh, Holds(true, slot)); }
  }

  /** The counter and the guard's destructor. */
  lemma Returns<V>(h0: Story<V>, h: Story<V>, s: State<V>, t: nat, sh: Shared<V>, v: V) returns (h': Story<V>)
    requires At(h0, h, s, t, sh, ReadCount(v))
    ensures At(h0, h', s, t, sh.(count := sh.count - 1, free := sh.free + 1,
                                 readMutex := if s.config.ReadsLock() then Free else sh.readMutex), Done(Got(v)))
  {
    hide IsRun, Alone, At, SendNext, SendMemory, Alarm, IsEmpty, Holds, Next;
    var counted := sh.(count := sh.count - 1);
    var freed := counted.(free := sh.free + 1);
    h' := Goes(h0, h, s, t, sh, ReadCount(v), counted, ReadRelease(v));
    if s.config.ReadsLock() {
      h' := Goes(h0, h', s, t, counted, ReadRelease(v), freed, ReadUnlock(v));
      h' := Goes(h0, h', s, t, freed, ReadUnlock(v), freed.(readMutex := Free), Done(Got(v)));
    } else {
      h' := Goes(h0, h', s, t, counted, ReadRelease(v), freed, Done(Got(v)));
    }
  }

  lemma TakesAtTicket<V>(h0: Story<V>, h: Story<V>, s: State<V>, t: nat, sh: Shared<V>, k: nat) returns (h': Story<V>)
    requires At(h0, h, s, t, sh, ReadSlot(k)) && k < |sh.buffer|
    ensures At(h0, h', s, t, sh.(buffer := sh.buffer[k := s.moved(sh.buffer[k])]), ReadCount(sh.buffer[k]))
  {
    hide IsRun, Alone, At, SendNext, SendMemory, Alarm, IsEmpty, Holds, Next;
    h' := Goes(h0, h, s, t, sh, ReadSlot(k), sh.(buffer := sh.buffer[k := s.moved(sh.buffer[k])]),
               ReadCount(sh.buffer[k]));
  }

  /** ReadHead moves out of the slot again after each compare-and-swap that fails without cause. */
  lemma MovesOut<V>(h0: Story<V>, h: Story<V>, s: State<V>, t: nat, sh: Shared<V>, lost: nat) returns (h': Story<V>)
    requires At(h0, h, s, t, sh, MoveHead(sh.head, lost)) && sh.head < |sh.buffer|
    ensures At(h0, h', s, t, sh.(buffer := sh.buffer[sh.head := s.moved(sh.buffer[sh.head])]),
               CasHead(sh.head, sh.buffer[sh.head], lost))
  {
    hide IsRun, Alone, At, SendNext, SendMemory, Alarm, IsEmpty, Holds, Next;
    h' := Goes(h0, h, s, t, sh, MoveHead(sh.head, lost),
               sh.(buffer := sh.buffer[sh.head := s.moved(sh.buffer[sh.head])]),
               CasHead(sh.head, sh.buffer[sh.head], lost));
  }

  lemma LosesRace<V>(h0: Story<V>, h: Story<V>, s: State<V>, t: nat, sh: Shared<V>, value: V, lost: nat)
    returns (h': Story<V>)
    requires At(h0, h, s, t, sh, CasHead(sh.head, value, lost))
    ensures At(h0, h', s, t, sh, MoveHead(sh.head, lost + 1))
  {
    hide IsRun, Alone, At, SendNext, SendMemory, Alarm, IsEmpty, Holds, Next;
    h' := FailsTo(h0, h, s, t, sh, CasHead(sh.head, value, lost), MoveHead(sh.head, lost + 1));
  }

  lemma LosesRaces<V>(h0: Story<V>, h: Story<V>, s: State<V>, t: nat, sh: Shared<V>, races: nat) returns (h': Story<V>)
    requires At(h0, h, s, t, sh, LoadHead) && sh.head < |sh.buffer|
    ensures At(h0, h', s, t, sh.(buffer := sh.buffer[sh.head := Worn(s.moved, races + 1, sh.buffer[sh.head])]),
               CasHead(sh.head, Worn(s.moved, races, sh.buffer[sh.head]), races))
  {
    hide At, Leads;
    h' := LoadsHead(h0, h, s, t, sh);
    h' := MovesOut(h0, h', s, t, sh, 0);
    var v := sh.buffer[sh.head];
    for i := 0 to races
      invariant At(h0, h', s, t, sh.(buffer := sh.buffer[sh.head := Worn(s.moved, i + 1, v)]),
                   CasHead(sh.head, Worn(s.moved, i, v), i))
    {
      var worn := sh.(buffer := sh.buffer[sh.head := Worn(s.moved, i + 1, v)]);
      h' := LosesRace(h0, h', s, t, worn, Worn(s.moved, i, v), i);
      h' := MovesOut(h0, h', s, t, worn, i + 1);
      assert worn.buffer[sh.head := s.moved(worn.buffer[sh.head])]
          == sh.buffer[sh.head := Worn(s.moved, i + 2, v)];
    }
  }

  lemma LoadsHead<V>(h0: Story<V>, h: Story<V>, s: State<V>, t: nat, sh: Shared<V>) returns (h': Story<V>)
    requires At(h0, h, s, t, sh, LoadHead)
    ensures At(h0, h', s, t, sh, MoveHead(sh.head, 0))
  {
    hide IsRun, Alone, At, SendNext, SendMemory, Alarm, IsEmpty, Holds, Next;
    h' := Goes(h0, h, s, t, sh, LoadHead, sh, MoveHead(sh.head, 0));
  }

  lemma PassesHead<V>(h0: Story<V>, h: Story<V>, s: State<V>, t: nat, sh: Shared<V>, value: V, lost: nat)
    returns (h': Story<V>)
    requires At(h0, h, s, t, sh, CasHead(sh.head, value, lost))
    ensures At(h0, h', s, t, sh.(head := Next(s.config, sh.head)), ReadCount(value))
  {
    hide IsRun, Alone, At, SendNext, SendMemory, Alarm, IsEmpty, Holds, Next;
    h' := Goes(h0, h, s, t, sh, CasHead(sh.head, value, lost), sh.(head := Next(s.config, sh.head)), ReadCount(value));
  }
}
