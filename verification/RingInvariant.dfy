/** Invariants of the ring in every run of every category and policy: who can be where, the mutexes, the
    permits and the counter. */
module RingInvariant {
  import opened Roles
  import opened Ring
  import Tallies

  predicate FitsShared<V>(c: Config, sh: Shared<V>) {
    && |sh.buffer| == c.capacity && sh.head < c.capacity && sh.tail < c.capacity
    && (c.overflow.Bounded? ==> !sh.overwriteMode)
  }

  predicate FitsSlot(c: Config, slot: Slot) { slot.Ticket? ==> c.category.MPMC? && slot.index < c.capacity }

  lemma HasThread<V>(s: State<V>, l: Label<V>)
    requires Enabled(s, l)
    ensures l.t in s.pc
  {
  }

  /** The control states that a category and policy can reach, and the ranges of their locals. */
  predicate FitsSend<V>(c: Config, pc: Pc<V>) {
    match pc
    case SendAcquire(_, _) => c.overflow.Bounded?
    case SendTicket(_, _) => c.Tickets()
    case SendLock(_, _) => c.SendsLock()
    case SendCheck(_, slot) => c.overflow.Bounded? && FitsSlot(c, slot) && (slot.Ticket? <==> c.Tickets())
    case SendCancelUnlock => c.overflow.Bounded? && c.SendsLock()
    case SendCancelRelease => c.overflow.Bounded?
    case SendCredit(_) => c.overflow.DropOldest?
    case DropFull(_) => c.overflow.DropOldest?
    case DropLoad(_) => c.overflow.DropOldest?
    case DropTest(_, _, _) => c.overflow.DropOldest?
    case DropCas(_, _, _) => c.overflow.DropOldest?
    case DropSub(_) => c.overflow.DropOldest?
    case LoadTail(_, slot, notify) =>
      FitsSlot(c, slot) && (slot.Ticket? <==> c.Tickets()) && (c.overflow.Bounded? ==> notify)
    case WriteSlot(_, index, slot, notify) =>
      && index < c.capacity && (slot.Ticket? <==> c.Tickets()) && (slot.Ticket? ==> index == slot.index)
      && (c.overflow.Bounded? ==> notify)
    case SetTail(_, index, notify) => index < c.capacity && !c.Tickets() && (c.overflow.Bounded? ==> notify)
    case SendUnlock => c.SendsLock()
    case _ => true
  }

  predicate FitsRead<V>(c: Config, pc: Pc<V>) {
    match pc
    case ReadMode(_) => c.category.MPMC?
    case ReadLock(_) => c.ReadsLock()
    case ReadAcquire(_, tickets) => (tickets ==> c.category.MPMC?) && (c.Tickets() ==> tickets)
    case ReadGiveUp => c.ReadsLock()
    case ReadTicket(_) => c.category.MPMC?
    case ReadCheck(slot) => FitsSlot(c, slot) && (c.Tickets() ==> slot.Ticket?)
    case ReadCancelUnlock => c.ReadsLock()
    case ReadSlot(index) => c.category.MPMC? && index < c.capacity
    case LoadHead => !c.Tickets()
    case MoveHead(head, _) => !c.Tickets() && head < c.capacity
    case CasHead(head, _, _) => !c.Tickets() && head < c.capacity
    case ReadUnlock(_) => c.ReadsLock()
    case _ => true
  }

  ghost predicate Fits<V>(s: State<V>) {
    FitsShared(s.config, s.sh) && forall t | t in s.pc :: FitsSend(s.config, s.pc[t]) && FitsRead(s.config, s.pc[t])
  }

  lemma SenderFits<V>(s: State<V>, l: Label<V>)
    requires Enabled(s, l) && Sending(s.pc[l.t]) && FitsShared(s.config, s.sh) && FitsSend(s.config, s.pc[l.t])
    ensures FitsShared(s.config, Memory(s, l))
    ensures FitsSend(s.config, Target(s, l)) && !Reading(Target(s, l))
  {
    hide ReadNext, ReadMemory, Start, IsFull, Alarm;
  }

  lemma ReaderFits<V>(s: State<V>, l: Label<V>)
    requires Enabled(s, l) && Reading(s.pc[l.t]) && FitsShared(s.config, s.sh) && FitsRead(s.config, s.pc[l.t])
    ensures FitsShared(s.config, Memory(s, l))
    ensures FitsRead(s.config, Target(s, l)) && !Sending(Target(s, l))
  {
    ReaderFitsRing(s, l);
    hide SendNext, SendMemory, ReadMemory, MovedOut, Next, IsEmpty, Alarm, Start;
  }

  lemma ReaderFitsRing<V>(s: State<V>, l: Label<V>)
    requires Enabled(s, l) && Reading(s.pc[l.t]) && FitsShared(s.config, s.sh) && FitsRead(s.config, s.pc[l.t])
    ensures FitsShared(s.config, Memory(s, l))
  {
    hide SendNext, SendMemory, ReadNext, IsEmpty, Alarm, Start, Failed, Target;
  }

  lemma CallFits<V>(s: State<V>, l: Label<V>)
    requires Enabled(s, l) && l.Begin?
    ensures Memory(s, l) == s.sh
    ensures Target(s, l).Done? || Target(s, l).SendProbe? || Target(s, l).ReadProbe?
    ensures (Sending(Target(s, l)) ==> Sends(l.op)) && (Reading(Target(s, l)) ==> !Sends(l.op))
  {
  }

  /** A thread stays on its side of the queue until its call returns. */
  lemma SideFits<V>(c: Config, pc: Pc<V>)
    ensures !Sending(pc) ==> FitsSend(c, pc)
    ensures !Reading(pc) ==> FitsRead(c, pc)
  {
  }

  lemma StepFits<V>(s: State<V>, l: Label<V>)
    requires Fits(s) && Enabled(s, l)
    ensures Fits(Apply(s, l))
  {
    hide FitsShared, FitsSend, FitsRead, Memory, Target, Sending;
    var q := Target(s, l);
    SideFits(s.config, q);
    if l.Begin? {
      CallFits(s, l);
      ProbesFit(s.config, q);
    } else if Sending(s.pc[l.t]) {
      SenderFits(s, l);
    } else {
      ReaderFits(s, l);
    }
    hide Enabled, Reading;
  }

  lemma ProbesFit<V>(c: Config, pc: Pc<V>)
    requires pc.Done? || pc.SendProbe? || pc.ReadProbe?
    ensures FitsSend(c, pc) && FitsRead(c, pc)
  {
  }

  /** Published by the semaphore or owed for a drop, and not yet counted. */
  predicate Uncounted<V>(pc: Pc<V>) {
    || (pc.LoadTail? && !pc.notify) || (pc.WriteSlot? && !pc.notify) || (pc.SetTail? && !pc.notify)
    || pc.SendUnlock? || pc.SendCount?
  }

  /** Taken from the semaphore and not yet subtracted. */
  predicate Unsubtracted<V>(pc: Pc<V>) {
    || pc.ReadTicket? || pc.ReadCheck? || pc.ReadCancelRelease?
    || pc.ReadSlot? || pc.LoadHead? || pc.MoveHead? || pc.CasHead? || pc.ReadCount?
  }

  /** The counter and the occupied permits differ exactly by the operations between their two updates. */
  ghost predicate Ledger<V>(s: State<V>) {
    s.sh.occupied - s.sh.count == Tallies.Count(s.pc, Uncounted<V>) - Tallies.Count(s.pc, Unsubtracted<V>)
  }

  lemma SenderLedger<V>(s: State<V>, l: Label<V>)
    requires Enabled(s, l) && Sending(s.pc[l.t])
    ensures (Memory(s, l).occupied - Memory(s, l).count) - (s.sh.occupied - s.sh.count)
              == Tallies.Bit(Uncounted(Target(s, l))) - Tallies.Bit(Uncounted(s.pc[l.t]))
    ensures !Unsubtracted(s.pc[l.t]) && !Unsubtracted(Target(s, l))
  {
    hide ReadNext, ReadMemory, Start, IsFull, Alarm, Put, Next;
  }

  lemma ReaderLedger<V>(s: State<V>, l: Label<V>)
    requires Enabled(s, l) && !Sending(s.pc[l.t])
    ensures (Memory(s, l).occupied - Memory(s, l).count) - (s.sh.occupied - s.sh.count)
              == Tallies.Bit(Unsubtracted(s.pc[l.t])) - Tallies.Bit(Unsubtracted(Target(s, l)))
    ensures !Uncounted(s.pc[l.t]) && !Uncounted(Target(s, l))
  {
    hide SendNext, SendMemory, IsEmpty, Alarm, MovedOut, Next;
  }

  lemma StepLedger<V>(s: State<V>, l: Label<V>)
    requires Ledger(s) && Enabled(s, l)
    ensures Ledger(Apply(s, l))
  {
    hide Memory, Target, Sending, Uncounted, Unsubtracted;
    if Sending(s.pc[l.t]) {
      SenderLedger(s, l);
    } else {
      ReaderLedger(s, l);
    }
    Tallies.Move(s.pc, l.t, Target(s, l), Uncounted<V>);
    Tallies.Move(s.pc, l.t, Target(s, l), Unsubtracted<V>);
  }

  /** A live guard of the bounded ring: from the permit it acquired to the permit it releases. */
  predicate SendGuarded<V>(pc: Pc<V>) {
    || pc.SendTicket? || pc.SendLock? || pc.SendCheck? || pc.SendCancelUnlock? || pc.SendCancelRelease?
    || pc.LoadTail? || pc.WriteSlot? || pc.SetTail? || pc.SendRelease?
  }

  predicate ReadGuarded<V>(pc: Pc<V>) { Unsubtracted(pc) || pc.ReadRelease? }

  /** Conservation of permits. */
  ghost predicate Permits<V>(s: State<V>) {
    && s.sh.free >= 0 && s.sh.occupied >= 0
    && (s.config.overflow.Bounded? ==>
          s.sh.free + s.sh.occupied + Tallies.Count(s.pc, SendGuarded<V>) + Tallies.Count(s.pc, ReadGuarded<V>)
            == s.config.capacity)
  }

  lemma SenderPermits<V>(s: State<V>, l: Label<V>)
    requires Enabled(s, l) && Sending(s.pc[l.t]) && FitsSend(s.config, s.pc[l.t])
    requires s.sh.free >= 0 && s.sh.occupied >= 0
    ensures Memory(s, l).free >= 0 && Memory(s, l).occupied >= 0
    ensures !ReadGuarded(s.pc[l.t]) && !ReadGuarded(Target(s, l))
    ensures s.config.overflow.Bounded? ==>
              (Memory(s, l).free + Memory(s, l).occupied) - (s.sh.free + s.sh.occupied)
                == Tallies.Bit(SendGuarded(s.pc[l.t])) - Tallies.Bit(SendGuarded(Target(s, l)))
  {
    hide ReadNext, ReadMemory, Start, IsFull, Alarm, Put, Next;
  }

  lemma ReaderPermits<V>(s: State<V>, l: Label<V>)
    requires Enabled(s, l) && !Sending(s.pc[l.t])
    requires s.sh.free >= 0 && s.sh.occupied >= 0
    ensures Memory(s, l).free >= 0 && Memory(s, l).occupied >= 0
    ensures !SendGuarded(s.pc[l.t]) && !SendGuarded(Target(s, l))
    ensures (Memory(s, l).free + Memory(s, l).occupied) - (s.sh.free + s.sh.occupied)
              == Tallies.Bit(ReadGuarded(s.pc[l.t])) - Tallies.Bit(ReadGuarded(Target(s, l)))
  {
    hide SendNext, SendMemory, IsEmpty, Alarm, MovedOut, Next;
  }

  lemma StepPermits<V>(s: State<V>, l: Label<V>)
    requires Fits(s) && Permits(s) && Enabled(s, l)
    ensures Permits(Apply(s, l))
  {
    hide Memory, Target, Sending, SendGuarded, ReadGuarded, FitsSend, FitsRead, FitsShared;
    if Sending(s.pc[l.t]) {
      SenderPermits(s, l);
    } else {
      ReaderPermits(s, l);
    }
    Tallies.Move(s.pc, l.t, Target(s, l), SendGuarded<V>);
    Tallies.Move(s.pc, l.t, Target(s, l), ReadGuarded<V>);
  }

  /** Inside the section that the sending mutex protects, and inside the reading one. */
  predicate SendLocked<V>(c: Config, pc: Pc<V>) {
    c.SendsLock() &&
    (|| pc.SendCheck? || pc.SendCancelUnlock? || pc.SendCredit? || pc.DropFull? || pc.DropLoad? || pc.DropTest?
     || pc.DropCas? || pc.DropSub? || pc.LoadTail? || pc.WriteSlot? || pc.SetTail? || pc.SendRelease? || pc.SendUnlock?)
  }

  predicate ReadLocked<V>(c: Config, pc: Pc<V>) {
    c.ReadsLock() &&
    (pc.ReadAcquire? || pc.ReadGiveUp? || pc.ReadCancelUnlock? || ReadGuarded(pc) || pc.ReadUnlock?)
  }

  /** A mutex is held by exactly the thread inside its section. */
  ghost predicate Mutexes<V>(s: State<V>) {
    && (s.sh.sendMutex.HeldBy? ==> s.sh.sendMutex.t in s.pc)
    && (s.sh.readMutex.HeldBy? ==> s.sh.readMutex.t in s.pc)
    && (forall t | t in s.pc :: SendLocked(s.config, s.pc[t]) <==> s.sh.sendMutex == HeldBy(t))
    && (forall t | t in s.pc :: ReadLocked(s.config, s.pc[t]) <==> s.sh.readMutex == HeldBy(t))
  }

  /** What a step does to a mutex and to the moving thread's place in its section. */
  predicate MutexStep(inside: bool, after: bool, t: nat, mutex: Mutex, mutex': Mutex) {
    || (inside == after && mutex' == mutex)
    || (!inside && after && mutex == Free && mutex' == HeldBy(t))
    || (inside && !after && mutex' == Free)
  }

  lemma SenderMutexes<V>(s: State<V>, l: Label<V>)
    requires Enabled(s, l) && Sending(s.pc[l.t]) && FitsSend(s.config, s.pc[l.t])
    ensures MutexStep(SendLocked(s.config, s.pc[l.t]), SendLocked(s.config, Target(s, l)), l.t,
                      s.sh.sendMutex, Memory(s, l).sendMutex)
    ensures !ReadLocked(s.config, s.pc[l.t]) && !ReadLocked(s.config, Target(s, l))
    ensures Memory(s, l).readMutex == s.sh.readMutex
  {
    SenderStaysOut(s, l);
    hide ReadLocked, ReadNext, ReadMemory, Start, IsFull, Alarm, Put, Next;
  }

  lemma SenderStaysOut<V>(s: State<V>, l: Label<V>)
    requires Enabled(s, l) && Sending(s.pc[l.t])
    ensures !ReadLocked(s.config, s.pc[l.t]) && !ReadLocked(s.config, Target(s, l))
    ensures Memory(s, l).readMutex == s.sh.readMutex
  {
    hide ReadNext, ReadMemory, Start, IsFull, Alarm, Put, Next;
  }

  lemma ReaderMutexes<V>(s: State<V>, l: Label<V>)
    requires Enabled(s, l) && !Sending(s.pc[l.t]) && FitsRead(s.config, s.pc[l.t])
    ensures MutexStep(ReadLocked(s.config, s.pc[l.t]), ReadLocked(s.config, Target(s, l)), l.t,
                      s.sh.readMutex, Memory(s, l).readMutex)
    ensures !SendLocked(s.config, s.pc[l.t]) && !SendLocked(s.config, Target(s, l))
    ensures Memory(s, l).sendMutex == s.sh.sendMutex
  {
    ReaderStaysOut(s, l);
    hide SendLocked, SendNext, SendMemory, IsEmpty, Alarm, MovedOut, Next;
  }

  lemma ReaderStaysOut<V>(s: State<V>, l: Label<V>)
    requires Enabled(s, l) && !Sending(s.pc[l.t])
    ensures !SendLocked(s.config, s.pc[l.t]) && !SendLocked(s.config, Target(s, l))
    ensures Memory(s, l).sendMutex == s.sh.sendMutex
  {
    hide SendNext, SendMemory, IsEmpty, Alarm, MovedOut, Next;
  }

  lemma StepMutexes<V>(s: State<V>, l: Label<V>)
    requires Fits(s) && Mutexes(s) && Enabled(s, l)
    ensures Mutexes(Apply(s, l))
  {
    hide Memory, Target, Sending, SendLocked, ReadLocked, FitsSend, FitsRead, FitsShared;
    if Sending(s.pc[l.t]) {
      SenderMutexes(s, l);
    } else {
      ReaderMutexes(s, l);
    }
  }

  /** The callers keep their promise: one sender, or one reader, at a time. */
  ghost predicate Solo<V>(s: State<V>) {
    && (SingleProducer(s.config.category) ==>
          forall t, u | t in s.pc && u in s.pc && Sending(s.pc[t]) && Sending(s.pc[u]) :: t == u)
    && (SingleConsumer(s.config.category) ==>
          forall t, u | t in s.pc && u in s.pc && Reading(s.pc[t]) && Reading(s.pc[u]) :: t == u)
  }

  lemma SideStays<V>(s: State<V>, l: Label<V>)
    requires Enabled(s, l) && FitsShared(s.config, s.sh) && FitsSend(s.config, s.pc[l.t])
             && FitsRead(s.config, s.pc[l.t])
    ensures Sending(Target(s, l)) ==> if l.Begin? then Sends(l.op) else Sending(s.pc[l.t])
    ensures Reading(Target(s, l)) ==> if l.Begin? then !Sends(l.op) else Reading(s.pc[l.t])
  {
    hide Memory, FitsShared, FitsSend, FitsRead, Target, Sending;
    if l.Begin? {
      CallFits(s, l);
    } else if Sending(s.pc[l.t]) {
      SenderFits(s, l);
    } else {
      ReaderFits(s, l);
    }
  }

  lemma StepSolo<V>(s: State<V>, l: Label<V>)
    requires Fits(s) && Solo(s) && Enabled(s, l)
    ensures Solo(Apply(s, l))
  {
    hide Memory, Target, Sending, FitsSend, FitsRead, FitsShared, Reading;
    SideStays(s, l);
    CallNeedsLeave(s, l);
    hide Enabled;
  }

  lemma CallNeedsLeave<V>(s: State<V>, l: Label<V>)
    requires Enabled(s, l)
    ensures l.Begin? ==> MayBegin(s, l.op)
  {
  }

  ghost predicate Inv<V>(s: State<V>) {
    Fits(s) && Ledger(s) && Permits(s) && Mutexes(s) && Solo(s)
  }

  lemma InitInv<V>(s: State<V>)
    requires Initial(s)
    ensures Inv(s)
  {
    Tallies.Zero(s.pc, Uncounted<V>);
    Tallies.Zero(s.pc, Unsubtracted<V>);
    Tallies.Zero(s.pc, SendGuarded<V>);
    Tallies.Zero(s.pc, ReadGuarded<V>);
  }

  lemma StepInv<V>(s: State<V>, l: Label<V>)
    requires Inv(s) && Enabled(s, l)
    ensures Inv(Apply(s, l))
  {
    hide Fits, Ledger, Permits, Mutexes, Solo, Enabled, Apply;
    StepFits(s, l);
    StepLedger(s, l);
    StepPermits(s, l);
    StepMutexes(s, l);
    StepSolo(s, l);
  }

  lemma {:induction false} RunInv<V>(r: seq<State<V>>, ls: seq<Label<V>>, i: nat)
    requires IsRun(r, ls) && i < |r|
    ensures Inv(r[i]) && r[i].config == r[0].config && r[i].moved == r[0].moved
  {
    hide Inv, Enabled, Initial, Memory, RolesAfter, Target;
    if i == 0 {
      InitInv(r[0]);
    } else {
      RunInv(r, ls, i - 1);
      assert Enabled(r[i - 1], ls[i - 1]) && r[i - 1 + 1] == Apply(r[i - 1], ls[i - 1]);
      StepInv(r[i - 1], ls[i - 1]);
    }
  }
}
