/** The answers of CircularSpec are those of the step system: what a call does that runs alone. */
module CircularRuns {
  import opened Roles
  import opened Ring
  import opened RingSolo
  import opened CircularSpec
  import opened Slots
  import RingFifo
  import RingInvariant
  import RingPermits

  ghost predicate Idle<V>(s: State<V>) { forall t | t in s.pc :: s.pc[t].Done? }

  /** h is h0 with one call of t, run by steps of t alone. */
  ghost predicate RunsAlone<V>(h0: Story<V>, h: Story<V>, t: nat, op: Op<V>) {
    && h.Runs() && |h0.labels| < |h.labels| && h.labels[..|h0.labels|] == h0.labels
    && h.labels[|h0.labels|] == Begin(t, op)
    && forall k | |h0.labels| < k < |h.labels| :: h.labels[k].t == t && !h.labels[k].Begin?
  }

  /** The call has returned or thrown, or t can take no step. */
  ghost predicate Ends<V>(s: State<V>, t: nat, o: Outcome<V>) {
    && t in s.pc
    && if o.Ended? then s.pc[t] == Done(o.result)
       else !s.pc[t].Done? && !Enabled(s, Step(t)) && !Enabled(s, Weak(t))
  }

  /** The roles of the call. */
  function Accounted<V>(s: State<V>, t: nat, role: Role): State<V> {
    s.(roles := s.roles[t := Account(s.config.policy, RoleOf(s.roles, t), role)])
  }

  lemma Calls<V>(h0: Story<V>, t: nat, op: Op<V>) returns (h: Story<V>)
    requires h0.Runs() && t in h0.Last().pc && Idle(h0.Last())
    ensures At(h, h, Accounted(h0.Last(), t, Direction(op)), t, h0.Last().sh, Start(h0.Last(), t, op))
    ensures h.labels == h0.labels + [Begin(t, op)]
  {
    hide IsRun, Start;
    h := Advance(h0, Begin(t, op));
  }

  lemma FromCall<V>(h0: Story<V>, b: Story<V>, h: Story<V>, t: nat, op: Op<V>)
    requires h.Runs() && b.labels == h0.labels + [Begin(t, op)] && Alone(b, h, t)
    ensures RunsAlone(h0, h, t, op)
  {
    assert h.labels[..|b.labels|] == b.labels && b.labels[|h0.labels|] == Begin(t, op);
    assert h.labels[..|h0.labels|] == b.labels[..|h0.labels|];
  }

  /** At rest the counter shows itself. */
  lemma CounterShows<V>(c: Config, sh: Shared<V>)
    requires AtRest(c, sh)
    ensures IsFull(c, sh) <==> |Contents(c, sh)| >= c.capacity
    ensures IsEmpty(sh) <==> Contents(c, sh) == []
  {
  }

  /** The fields behind the probe of a send. */
  function ModeSet<V>(c: Config, sh: Shared<V>): Shared<V> {
    if c.category.MPMC? then sh.(overwriteMode := c.overflow.DropOldest?) else sh
  }

  /** The probe of a send, and the mode of the ring that it sets when it has nothing to say. */
  lemma SendProbes<V>(b: Story<V>, h: Story<V>, s: State<V>, t: nat, sh: Shared<V>, v: V, blocking: bool)
    returns (h': Story<V>)
    requires At(b, h, s, t, sh, SendProbe(v, blocking))
    ensures RoleOf(s.roles, t) == Both && IsFull(s.config, sh) && !blocking ==> At(b, h', s, t, sh, Done(Refused))
    ensures RoleOf(s.roles, t) == Both && IsFull(s.config, sh) && blocking && !s.config.policy.NoException? ==>
              At(b, h', s, t, sh, Done(ThrewDeadlock))
    ensures !(RoleOf(s.roles, t) == Both && IsFull(s.config, sh)) || (blocking && s.config.policy.NoException?) ==>
              At(b, h', s, t, ModeSet(s.config, sh), SendGuard(s.config, v, blocking))
  {
    hide IsRun, Alone, At, ReadNext, ReadMemory, IsFull, SendGuard;
    if RoleOf(s.roles, t) == Both && IsFull(s.config, sh) && !blocking {
      h' := Goes(b, h, s, t, sh, SendProbe(v, blocking), sh, Done(Refused));
    } else if RoleOf(s.roles, t) == Both && IsFull(s.config, sh) && !s.config.policy.NoException? {
      h' := Goes(b, h, s, t, sh, SendProbe(v, blocking), sh, Done(ThrewDeadlock));
    } else {
      h' := SendPasses(b, h, s, t, sh, v, blocking);
    }
  }

  lemma SendPasses<V>(b: Story<V>, h: Story<V>, s: State<V>, t: nat, sh: Shared<V>, v: V, blocking: bool)
    returns (h': Story<V>)
    requires At(b, h, s, t, sh, SendProbe(v, blocking))
    requires !(RoleOf(s.roles, t) == Both && IsFull(s.config, sh)) || (blocking && s.config.policy.NoException?)
    ensures At(b, h', s, t, ModeSet(s.config, sh), SendGuard(s.config, v, blocking))
  {
    hide IsRun, Alone, At, ReadNext, ReadMemory, IsFull, SendGuard;
    var to := SendGuard(s.config, v, blocking);
    if s.config.category.MPMC? {
      h' := Goes(b, h, s, t, sh, SendProbe(v, blocking), sh, SetMode(v, blocking));
      h' := Goes(b, h', s, t, sh, SetMode(v, blocking), ModeSet(s.config, sh), to);
    } else {
      h' := Goes(b, h, s, t, sh, SendProbe(v, blocking), sh, to);
    }
  }

  /** A bounded send with a free permit, from its guard on. */
  lemma SendsBounded<V>(b: Story<V>, h: Story<V>, s: State<V>, t: nat, sh: Shared<V>, v: V, blocking: bool)
    returns (h': Story<V>)
    requires At(b, h, s, t, sh, SendAcquire(v, blocking)) && s.config.overflow.Bounded?
    requires AtRest(s.config, sh) && sh.count < s.config.capacity
    ensures Last(s.config, sh) < |sh.buffer|
    ensures At(b, h', s, t, CircularSpec.Stored(s.config, sh, v, sh.free - 1, true), Done(Sent))
  {
    hide At, Contents, IsFull, Published, Admitted, Next;
    CounterShows(s.config, sh);
    h' := Acquires(b, h, s, t, sh, v, blocking);
    var slot, k := TicketFor(s.config, sh.writeSeq), Last(s.config, sh);
    var granted := sh.(free := sh.free - 1, sendMutex := if s.config.SendsLock() then HeldBy(t) else sh.sendMutex,
                       writeSeq := if s.config.Tickets() then sh.writeSeq + 1 else sh.writeSeq);
    SameFull(s.config, sh, granted);
    h' := LooksAgain(b, h', s, t, granted, v, blocking, slot);
    h' := WritesSlot(b, h', s, t, granted, v, slot, true, k);
    h' := Publishes(b, h', s, t, granted.(buffer := granted.buffer[k := v],
                                          tail := if slot.Ticket? then granted.tail else Next(s.config, k)), true);
  }

  lemma SameFull<V>(c: Config, sh: Shared<V>, sh': Shared<V>)
    requires sh.count == sh'.count
    ensures IsFull(c, sh) == IsFull(c, sh')
  {
  }

  /** The free permits after an overwriting send has asked for one. */
  function Credit(free: int, fails: bool): int { if free > 0 && !fails then free - 1 else free }

  /** An overwriting send with its mutex, from its credit on: lostRaces compare-and-swaps of its drop loop fail
      first. */
  lemma Overwrites<V>(b: Story<V>, h: Story<V>, s: State<V>, t: nat, sh: Shared<V>, pre: Shared<V>, v: V, fails: bool,
                      lostRaces: nat)
    returns (h': Story<V>)
    requires At(b, h, s, t, sh, SendCredit(v)) && s.config.overflow.DropOldest? && AtRest(s.config, pre)
    requires sh == if s.config.SendsLock() then pre.(sendMutex := HeldBy(t)) else pre
    ensures pre.tail < |pre.buffer|
    ensures At(b, h', s, t, Overwritten(s.config, pre, v, Credit(pre.free, fails), lostRaces), Done(Sent))
  {
    hide At, Contents, IsFull, Published, Next;
    CounterShows(s.config, pre);
    h' := TakesCredit(b, h, s, t, sh, v, fails);
    var now := sh.(free := Credit(pre.free, fails));
    SameFull(s.config, pre, now);
    if pre.count < s.config.capacity {
      h' := NeedsNoDrop(b, h', s, t, now, v);
      h' := StoresAtTail(b, h', s, t, now, v, true);
    } else {
      h' := StartsDrop(b, h', s, t, now, v);
      if lostRaces < DROP_ATTEMPTS {
        h' := LosesDrops(b, h', s, t, now, v, lostRaces);
        h' := Drops(b, h', s, t, now, v, lostRaces);
        h' := StoresAtTail(b, h', s, t, now.(head := Next(s.config, now.head), count := now.count - 1), v, false);
      } else {
        h' := LosesDrops(b, h', s, t, now, v, DROP_ATTEMPTS);
        h' := GivesUpDropping(b, h', s, t, now, v);
        h' := StoresAtTail(b, h', s, t, now, v, true);
      }
    }
  }

  lemma StoresAtTail<V>(b: Story<V>, h: Story<V>, s: State<V>, t: nat, sh: Shared<V>, v: V, notify: bool)
    returns (h': Story<V>)
    requires At(b, h, s, t, sh, LoadTail(v, NoTicket, notify)) && sh.tail < |sh.buffer|
    ensures At(b, h', s, t, sh.(buffer := sh.buffer[sh.tail := v], tail := Next(s.config, sh.tail),
                                occupied := if notify then sh.occupied + 1 else sh.occupied,
                                sendMutex := if s.config.SendsLock() then Free else sh.sendMutex,
                                count := sh.count + 1), Done(Sent))
  {
    hide At, Published, Next;
    h' := WritesSlot(b, h, s, t, sh, v, NoTicket, notify, sh.tail);
    h' := Publishes(b, h', s, t, sh.(buffer := sh.buffer[sh.tail := v], tail := Next(s.config, sh.tail)), notify);
  }

  /** The mutex of an overwriting send. */
  lemma LocksForSending<V>(b: Story<V>, h: Story<V>, s: State<V>, t: nat, sh: Shared<V>, v: V, blocking: bool)
    returns (h': Story<V>)
    requires At(b, h, s, t, sh, SendGuard(s.config, v, blocking)) && s.config.overflow.DropOldest?
             && sh.sendMutex == Free
    ensures At(b, h', s, t, if s.config.SendsLock() then sh.(sendMutex := HeldBy(t)) else sh, SendCredit(v))
  {
    hide IsRun, Alone, At, ReadNext, ReadMemory, IsFull;
    h' := h;
    if s.config.SendsLock() {
      h' := Goes(b, h, s, t, sh, SendLock(v, blocking), sh.(sendMutex := HeldBy(t)), SendCredit(v));
    }
  }

  /** What a send that goes through leaves behind: the ring enqueues, unless a full one lost all its races. */
  ghost predicate GoneThrough<V>(c: Config, sh: Shared<V>, sh': Shared<V>, v: V, lostRaces: nat)
    requires AtRest(c, sh)
  {
    if c.overflow.DropOldest? && sh.count == c.capacity && lostRaces >= DROP_ATTEMPTS
    then !AtRest(c, sh') && sh'.count == sh'.occupied == c.capacity + 1
    else AtRest(c, sh') && Contents(c, sh') == Enqueued(c, Contents(c, sh), v)
  }

  /** A send that has room, or may drop, behind its probe. */
  lemma GoesThrough<V>(b: Story<V>, h: Story<V>, s: State<V>, t: nat, sh: Shared<V>, v: V, blocking: bool, fails: bool,
                       lostRaces: nat)
    returns (h': Story<V>)
    requires At(b, h, s, t, ModeSet(s.config, sh), SendGuard(s.config, v, blocking)) && AtRest(s.config, sh)
    requires s.config.overflow.Bounded? ==> sh.count < s.config.capacity
    ensures h'.Runs() && Alone(b, h', t) && t in s.pc
            && h'.Last() == s.(sh := h'.Last().sh, pc := s.pc[t := Done(Sent)])
    ensures GoneThrough(s.config, sh, h'.Last().sh, v, lostRaces)
  {
    hide Alone, Contents, Enqueued, Next, IsRun;
    var c, pre := s.config, ModeSet(s.config, sh);
    RestsInMode(c, sh);
    if c.overflow.Bounded? {
      h' := SendsBounded(b, h, s, t, pre, v, blocking);
      StoredAppends(c, pre, v, pre.free - 1);
      NotFull(c, Contents(c, sh), v);
    } else {
      h' := LocksForSending(b, h, s, t, pre, v, blocking);
      h' := Overwrites(b, h', s, t, if c.SendsLock() then pre.(sendMutex := HeldBy(t)) else pre, pre, v, fails,
                       lostRaces);
      OverwritingEnqueues(c, pre, v, Credit(pre.free, fails), lostRaces);
    }
  }

  lemma NotFull<V>(c: Config, q: seq<V>, v: V)
    ensures |q| < c.capacity ==> Enqueued(c, q, v) == q + [v]
  {
  }

  lemma RestsInMode<V>(c: Config, sh: Shared<V>)
    requires AtRest(c, sh)
    ensures AtRest(c, ModeSet(c, sh)) && Contents(c, ModeSet(c, sh)) == Contents(c, sh)
    ensures c.overflow.DropOldest? && c.category.MPMC? ==> ModeSet(c, sh).overwriteMode
    ensures c.overflow.Bounded? ==> ModeSet(c, sh) == sh
  {
  }

  /** The state that a call of t ends in, from s: only its own control state, its role and the fields may differ. */
  ghost predicate Leaves<V>(s: State<V>, s': State<V>, t: nat, role: Role) {
    && s'.config == s.config && s'.roles == Accounted(s, t, role).roles
    && s'.pc.Keys == s.pc.Keys && forall u | u in s.pc && u != t :: s'.pc[u] == s.pc[u]
  }

  /** Send, run alone from any idle state of any run in which the ring is well formed: it does what SendResult says.
      fails and lostRaces say what the atomics do on their own. */
  lemma SendAlone<V>(h0: Story<V>, t: nat, v: V, fails: bool, lostRaces: nat) returns (h: Story<V>)
    requires h0.Runs() && t in h0.Last().pc && Idle(h0.Last()) && AtRest(h0.Last().config, h0.Last().sh)
    ensures RunsAlone(h0, h, t, Send(v)) && Leaves(h0.Last(), h.Last(), t, Producer)
    ensures var s, s' := h0.Last(), h.Last();
            var o := SendResult(s.config, RoleOf(s'.roles, t), Throws(s.config.policy, RoleOf(s.roles, t), Producer),
                                Contents(s.config, s.sh));
            && Ends(s', t, o)
            && (if o == Ended(Sent) then GoneThrough(s.config, s.sh, s'.sh, v, lostRaces)
                else AtRest(s.config, s'.sh) && Contents(s.config, s'.sh) == Contents(s.config, s.sh))
  {
    hide IsRun, Alone, RunsAlone, Contents, IsFull, IsEmpty, AtRest, Account, Throws, GoneThrough, Idle;
    var s0, c, sh := h0.Last(), h0.Last().config, h0.Last().sh;
    var s := Accounted(s0, t, Producer);
    var b := Calls(h0, t, Send(v));
    CounterShows(c, sh);
    RestsInMode(c, sh);
    h := b;
    if !Throws(c.policy, RoleOf(s0.roles, t), Producer) {
      h := SendProbes(b, h, s, t, sh, v, true);
      if !(RoleOf(s.roles, t) == Both && IsFull(c, sh)) || c.policy.NoException? {
        if c.overflow.DropOldest? || !IsFull(c, sh) {
          WithinRing(c, sh);
          h := GoesThrough(b, h, s, t, sh, v, true, fails, lostRaces);
        } else {
          FullHasNoPermit(c, sh);
        }
      }
    }
    FromCall(h0, b, h, t, Send(v));
  }

  lemma FullHasNoPermit<V>(c: Config, sh: Shared<V>)
    requires AtRest(c, sh) && c.overflow.Bounded? && IsFull(c, sh)
    ensures sh.free == 0
  {
  }

  /** The try of a try-send's guard fails. */
  lemma IsRefused<V>(b: Story<V>, h: Story<V>, s: State<V>, t: nat, sh: Shared<V>, v: V) returns (h': Story<V>)
    requires At(b, h, s, t, sh, SendGuard(s.config, v, false)) && (s.config.overflow.Bounded? || s.config.SendsLock())
    ensures At(b, h', s, t, sh, Done(Refused))
  {
    hide IsRun, Alone, At;
    h' := FailsTo(b, h, s, t, sh, SendGuard(s.config, v, false), Done(Refused));
  }

  /** TrySend, run alone: it does what TrySendResult says; tryFails is a try_acquire or try_lock that fails without
      cause. */
  lemma TrySendAlone<V>(h0: Story<V>, t: nat, v: V, tryFails: bool, fails: bool, lostRaces: nat) returns (h: Story<V>)
    requires h0.Runs() && t in h0.Last().pc && Idle(h0.Last()) && AtRest(h0.Last().config, h0.Last().sh)
    ensures RunsAlone(h0, h, t, TrySend(v)) && Leaves(h0.Last(), h.Last(), t, Producer)
    ensures var s, s' := h0.Last(), h.Last();
            var o := TrySendResult(s.config, RoleOf(s'.roles, t), Throws(s.config.policy, RoleOf(s.roles, t), Producer),
                                   Contents(s.config, s.sh), tryFails);
            && Ends(s', t, o)
            && (if o == Ended(Sent) then GoneThrough(s.config, s.sh, s'.sh, v, lostRaces)
                else AtRest(s.config, s'.sh) && Contents(s.config, s'.sh) == Contents(s.config, s.sh))
  {
    hide IsRun, Alone, RunsAlone, Contents, IsFull, IsEmpty, AtRest, Account, Throws, GoneThrough, Idle, SendGuard;
    var s0, c, sh := h0.Last(), h0.Last().config, h0.Last().sh;
    var s := Accounted(s0, t, Producer);
    var b := Calls(h0, t, TrySend(v));
    CounterShows(c, sh);
    RestsInMode(c, sh);
    h := b;
    if !Throws(c.policy, RoleOf(s0.roles, t), Producer) {
      h := SendProbes(b, h, s, t, sh, v, false);
      if !(RoleOf(s.roles, t) == Both && IsFull(c, sh)) {
        if (c.overflow.Bounded? && (tryFails || IsFull(c, sh))) || (c.SendsLock() && tryFails) {
          h := IsRefused(b, h, s, t, ModeSet(c, sh), v);
        } else {
          WithinRing(c, sh);
          h := GoesThrough(b, h, s, t, sh, v, false, fails, lostRaces);
        }
      }
    }
    FromCall(h0, b, h, t, TrySend(v));
  }

  /** The probe of a read. */
  lemma ReadProbes<V>(b: Story<V>, h: Story<V>, s: State<V>, t: nat, sh: Shared<V>, blocking: bool)
    returns (h': Story<V>)
    requires At(b, h, s, t, sh, ReadProbe(blocking))
    ensures RoleOf(s.roles, t) == Both && IsEmpty(sh) && !blocking ==> At(b, h', s, t, sh, Done(Nothing))
    ensures RoleOf(s.roles, t) == Both && IsEmpty(sh) && blocking && !s.config.policy.NoException? ==>
              At(b, h', s, t, sh, Done(ThrewDeadlock))
    ensures !(RoleOf(s.roles, t) == Both && IsEmpty(sh)) || (blocking && s.config.policy.NoException?) ==>
              At(b, h', s, t, sh, ReadGuard(s, sh, blocking))
  {
    hide IsRun, Alone, At, SendNext, SendMemory, IsEmpty;
    if RoleOf(s.roles, t) == Both && IsEmpty(sh) && !blocking {
      h' := Goes(b, h, s, t, sh, ReadProbe(blocking), sh, Done(Nothing));
    } else if RoleOf(s.roles, t) == Both && IsEmpty(sh) && !s.config.policy.NoException? {
      h' := Goes(b, h, s, t, sh, ReadProbe(blocking), sh, Done(ThrewDeadlock));
    } else {
      h' := ReadPasses(b, h, s, t, sh, blocking);
    }
  }

  lemma ReadPasses<V>(b: Story<V>, h: Story<V>, s: State<V>, t: nat, sh: Shared<V>, blocking: bool)
    returns (h': Story<V>)
    requires At(b, h, s, t, sh, ReadProbe(blocking))
    requires !(RoleOf(s.roles, t) == Both && IsEmpty(sh)) || (blocking && s.config.policy.NoException?)
    ensures At(b, h', s, t, sh, ReadGuard(s, sh, blocking))
  {
    hide IsRun, Alone, At, SendNext, SendMemory, IsEmpty;
    var to := ReadGuard(s, sh, blocking);
    if s.config.category.MPMC? {
      h' := Goes(b, h, s, t, sh, ReadProbe(blocking), sh, ReadMode(blocking));
      h' := Goes(b, h', s, t, sh, ReadMode(blocking), sh, to);
    } else {
      h' := Goes(b, h, s, t, sh, ReadProbe(blocking), sh, to);
    }
  }

  /** The message is moved out of its slot, by ticket or at the head. */
  lemma TakesMessage<V>(b: Story<V>, h: Story<V>, s: State<V>, t: nat, sh: Shared<V>, k: nat, lostRaces: nat)
    returns (h': Story<V>)
    requires At(b, h, s, t, sh, if s.config.Tickets() then ReadSlot(k) else LoadHead) && k < |sh.buffer|
    requires !s.config.Tickets() ==> k == sh.head
    ensures var moves := if s.config.Tickets() then 0 else lostRaces;
            At(b, h', s, t,
               sh.(buffer := sh.buffer[k := Worn(s.moved, moves + 1, sh.buffer[k])],
                   head := if s.config.Tickets() then sh.head else Next(s.config, sh.head)),
               ReadCount(Gets(s.config, s.moved, sh.buffer[k], lostRaces)))
  {
    hide At, Next;
    if s.config.Tickets() {
      h' := TakesAtTicket(b, h, s, t, sh, k);
      assert s.moved(sh.buffer[k]) == Worn(s.moved, 1, sh.buffer[k]);
    } else {
      h' := LosesRaces(b, h, s, t, sh, lostRaces);
      var worn := sh.(buffer := sh.buffer[k := Worn(s.moved, lostRaces + 1, sh.buffer[k])]);
      h' := PassesHead(b, h', s, t, worn, Worn(s.moved, lostRaces, sh.buffer[k]), lostRaces);
    }
  }

  /** A read that finds a message, behind its probe. */
  lemma Receives<V>(b: Story<V>, h: Story<V>, s: State<V>, t: nat, sh: Shared<V>, blocking: bool, lostRaces: nat)
    returns (h': Story<V>)
    requires At(b, h, s, t, sh, ReadGuard(s, sh, blocking)) && AtRest(s.config, sh) && sh.count > 0
    ensures h'.Runs() && AtRest(s.config, h'.Last().sh)
    ensures Contents(s.config, h'.Last().sh) == Contents(s.config, sh)[1..]
    ensures At(b, h', s, t, h'.Last().sh, Done(Got(Gets(s.config, s.moved, Contents(s.config, sh)[0], lostRaces))))
  {
    hide IsRun, At, Contents, IsEmpty, Next, Worn, AtRest, Holds, Gets;
    var c := s.config;
    RestingRing(c, sh);
    CounterShows(c, sh);
    WithinRing(c, sh);
    var k := First(c, sh) % c.capacity;
    var left := Worn(s.moved, (if c.Tickets() then 0 else lostRaces) + 1, sh.buffer[k]);
    TakenDropsFirst(c, sh, left);
    var locked := if c.ReadsLock() then sh.(readMutex := HeldBy(t)) else sh;
    h' := LocksForReading(b, h, s, t, sh, blocking);
    h' := AcquiresMessage(b, h', s, t, locked, blocking, c.Tickets());
    var slot := if c.Tickets() then Ticket(sh.readSeq % c.capacity) else NoTicket;
    var granted := locked.(occupied := sh.occupied - 1, readSeq := if c.Tickets() then sh.readSeq + 1 else sh.readSeq);
    SameEmpty(sh, granted);
    h' := SeesMessage(b, h', s, t, granted, blocking, slot);
    HoldsSlot<V>(slot);
    h' := TakesMessage(b, h', s, t, granted, k, lostRaces);
    var taken := granted.(buffer := granted.buffer[k := left],
                          head := if c.Tickets() then sh.head else Next(c, sh.head));
    h' := Returns(b, h', s, t, taken, Gets(c, s.moved, sh.buffer[k], lostRaces));
    LastIs(b, h', s, t, Taken(c, sh, left), Done(Got(Gets(c, s.moved, sh.buffer[k], lostRaces))));
  }

  lemma HoldsSlot<V>(slot: Slot)
    ensures Holds<V>(true, slot) == if slot.Ticket? then ReadSlot(slot.index) else LoadHead
  {
  }

  lemma SameEmpty<V>(sh: Shared<V>, sh': Shared<V>)
    requires sh.count == sh'.count
    ensures IsEmpty(sh) == IsEmpty(sh')
  {
  }

  lemma LastIs<V>(b: Story<V>, h: Story<V>, s: State<V>, t: nat, sh: Shared<V>, pc: Pc<V>)
    requires At(b, h, s, t, sh, pc)
    ensures h.Runs() && h.Last().sh == sh
  {
  }

  /** Read, run alone: it does what ReadResult says of the queue as its own lost races leave the first message. */
  lemma ReadAlone<V>(h0: Story<V>, t: nat, lostRaces: nat) returns (h: Story<V>)
    requires h0.Runs() && t in h0.Last().pc && Idle(h0.Last()) && AtRest(h0.Last().config, h0.Last().sh)
    ensures RunsAlone(h0, h, t, Read) && Leaves(h0.Last(), h.Last(), t, Consumer)
    ensures var s, s', c := h0.Last(), h.Last(), h0.Last().config;
            var q := Contents(c, s.sh);
            var o := ReadResult(c, RoleOf(s'.roles, t), Throws(c.policy, RoleOf(s.roles, t), Consumer),
                                AsRead(c, s.moved, q, lostRaces));
            && Ends(s', t, o)
            && (o.Blocks? ==> s'.sh == if c.ReadsLock() then s.sh.(readMutex := HeldBy(t)) else s.sh)
            && (o.Ended? ==> AtRest(c, s'.sh) && Contents(c, s'.sh) == AfterRead(q, o))
  {
    hide IsRun, RunsAlone, Contents, IsEmpty, AtRest, Account, Throws, Idle, Gets, ReadGuard, At, Alone, Leaves;
    var s0, c, sh := h0.Last(), h0.Last().config, h0.Last().sh;
    var s := Accounted(s0, t, Consumer);
    var b := Calls(h0, t, Read);
    CounterShows(c, sh);
    WithinRing(c, sh);
    h := b;
    var sh', pc := sh, Start(s0, t, Read);
    if !Throws(c.policy, RoleOf(s0.roles, t), Consumer) {
      h := ReadProbes(b, h, s, t, sh, true);
      if RoleOf(s.roles, t) == Both && IsEmpty(sh) && !c.policy.NoException? {
        pc := Done(ThrewDeadlock);
      } else if IsEmpty(sh) {
        EmptyHasNoPermit(c, sh);
        h := LocksForReading(b, h, s, t, sh, true);
        sh', pc := if c.ReadsLock() then sh.(readMutex := HeldBy(t)) else sh,
                   ReadAcquire(true, c.category.MPMC? && !sh.overwriteMode);
      } else {
        h := Receives(b, h, s, t, sh, true, lostRaces);
        sh', pc := h.Last().sh, Done(Got(Gets(c, s.moved, Contents(c, sh)[0], lostRaces)));
      }
    }
    LeavesOnly(b, h, s0, t, Consumer, sh', pc);
    FromCall(h0, b, h, t, Read);
  }

  lemma LeavesOnly<V>(b: Story<V>, h: Story<V>, s0: State<V>, t: nat, role: Role, sh: Shared<V>, pc: Pc<V>)
    requires At(b, h, Accounted(s0, t, role), t, sh, pc) && t in s0.pc
    ensures h.Runs() && Alone(b, h, t) && Leaves(s0, h.Last(), t, role)
    ensures h.Last() == Accounted(s0, t, role).(sh := sh, pc := s0.pc[t := pc])
  {
    hide IsRun, Alone, Account;
  }

  lemma EmptyHasNoPermit<V>(c: Config, sh: Shared<V>)
    requires AtRest(c, sh) && IsEmpty(sh)
    ensures sh.occupied == 0 && sh.readMutex == Free && sh.count == 0
  {
  }

  /** The try of a try-read fails: at the mutex, or at the permit, and then the mutex is unlocked again. */
  lemma FindsNothing<V>(b: Story<V>, h: Story<V>, s: State<V>, t: nat, sh: Shared<V>, atLock: bool)
    returns (h': Story<V>)
    requires At(b, h, s, t, sh, ReadGuard(s, sh, false)) && sh.readMutex == Free
    ensures At(b, h', s, t, sh, Done(Nothing))
  {
    hide IsRun, Alone, At, SendNext, SendMemory, IsEmpty, Alarm;
    var locks, tickets := s.config.ReadsLock(), s.config.category.MPMC? && !sh.overwriteMode;
    if locks && atLock {
      h' := FailsTo(b, h, s, t, sh, ReadLock(false), Done(Nothing));
    } else {
      h' := LocksForReading(b, h, s, t, sh, false);
      if locks {
        var locked := sh.(readMutex := HeldBy(t));
        h' := FailsTo(b, h', s, t, locked, ReadAcquire(false, tickets), ReadGiveUp);
        h' := Goes(b, h', s, t, locked, ReadGiveUp, locked.(readMutex := Free), Done(Nothing));
      } else {
        h' := FailsTo(b, h', s, t, sh, ReadAcquire(false, tickets), Done(Nothing));
      }
    }
  }

  /** TryRead, run alone: it does what TryReadResult says. */
  lemma TryReadAlone<V>(h0: Story<V>, t: nat, tryFails: bool, lostRaces: nat) returns (h: Story<V>)
    requires h0.Runs() && t in h0.Last().pc && Idle(h0.Last()) && AtRest(h0.Last().config, h0.Last().sh)
    ensures RunsAlone(h0, h, t, TryRead) && Leaves(h0.Last(), h.Last(), t, Consumer)
    ensures var s, s', c := h0.Last(), h.Last(), h0.Last().config;
            var q := Contents(c, s.sh);
            var o := TryReadResult(RoleOf(s'.roles, t), Throws(c.policy, RoleOf(s.roles, t), Consumer),
                                   AsRead(c, s.moved, q, lostRaces), tryFails);
            Ends(s', t, o) && AtRest(c, s'.sh) && Contents(c, s'.sh) == AfterRead(q, o)
  {
    hide IsRun, RunsAlone, Contents, IsEmpty, AtRest, Account, Throws, Idle, Gets, ReadGuard;
    var s0, c, sh := h0.Last(), h0.Last().config, h0.Last().sh;
    var s := Accounted(s0, t, Consumer);
    var b := Calls(h0, t, TryRead);
    CounterShows(c, sh);
    WithinRing(c, sh);
    h := b;
    if !Throws(c.policy, RoleOf(s0.roles, t), Consumer) {
      h := ReadProbes(b, h, s, t, sh, false);
      if !(RoleOf(s.roles, t) == Both && IsEmpty(sh)) {
        if IsEmpty(sh) || tryFails {
          RestingReader(c, sh);
          h := FindsNothing(b, h, s, t, sh, tryFails);
        } else {
          h := Receives(b, h, s, t, sh, false, lostRaces);
        }
      }
    }
    FromCall(h0, b, h, t, TryRead);
  }

  lemma RestingReader<V>(c: Config, sh: Shared<V>)
    requires AtRest(c, sh)
    ensures sh.readMutex == Free
  {
  }

  /** Messages in a row, from the d-th on. */
  lemma RowRests<V>(c: Config, sh: Shared<V>, written: seq<V>, d: nat)
    requires RingFifo.Ordered(c) && |sh.buffer| == c.capacity
    requires d <= |written| && |written| - d == sh.count <= c.capacity
    requires sh.head == d % c.capacity && sh.tail == |written| % c.capacity && !sh.overwriteMode
    requires sh.occupied == sh.count && sh.free + sh.count == c.capacity && sh.sendMutex == Free && sh.readMutex == Free
    requires forall k | d <= k < |written| :: RingFifo.InSlot(c, sh, k) == written[k]
    ensures AtRest(c, sh) && Contents(c, sh) == written[d..]
  {
    var n := |written| - d;
    SameSlot(d, n, c.capacity);
    assert d + n == |written|;
    forall k | 0 <= k < n ensures Contents(c, sh)[k] == written[d..][k] {
      SameSlot(d, k, c.capacity);
      assert RingFifo.InSlot(c, sh, d + k) == written[d + k];
    }
  }

  lemma FieldsAtRest<V>(r: seq<State<V>>, ls: seq<Label<V>>, i: nat)
    requires IsRun(r, ls) && i < |r| && RingFifo.Ordered(r[0].config)
    ensures r[i].config == r[0].config && !r[i].sh.overwriteMode
    ensures var g, c := RingFifo.Recorded(r, ls, i), r[i].config;
            r[i].sh.head == |g.delivered| % c.capacity && r[i].sh.tail == |g.written| % c.capacity
  {
    hide IsRun, RingFifo.Recorded, RingFifo.Untouched, RingFifo.LocalsOk, RingFifo.Unread, Worn;
    hide RingInvariant.Ledger, RingInvariant.Permits, RingInvariant.Mutexes, RingInvariant.Solo;
    RingInvariant.RunInv(r, ls, i);
    RingFifo.RunFifo(r, ls, i);
  }

  /** In the bounded SPSC, MPSC and SPMC rings every idle state of every run is well formed, and its contents are the
      messages written and not delivered. */
  lemma IdleRests<V>(r: seq<State<V>>, ls: seq<Label<V>>, i: nat)
    requires IsRun(r, ls) && i < |r| && RingFifo.Ordered(r[0].config) && Idle(r[i])
    ensures AtRest(r[i].config, r[i].sh)
    ensures var g := RingFifo.Recorded(r, ls, i);
            |g.delivered| <= |g.written| && Contents(r[i].config, r[i].sh) == g.written[|g.delivered|..]
  {
    var g := RingFifo.Recorded(r, ls, i);
    hide IsRun, RingFifo.Recorded, RingFifo.InSlot, Worn, AtRest, Contents;
    FieldsAtRest(r, ls, i);
    RingFifo.RunIsFifo(r, ls, i);
    RingPermits.RestIsExact(r, ls, i);
    RowRests(r[i].config, r[i].sh, g.written, |g.delivered|);
  }
}
