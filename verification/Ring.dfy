/** The circular queues of lib/circular as one interleaved step system: the ring and its counter, the four
    synchronisation variants, and both overflow policies. */
module Ring {
  import opened Counters
  import opened Roles

  // One step is one operation on an atomic, a semaphore or a mutex, or one access to a slot. A message that
  // is moved out of a slot leaves there what the type's move leaves behind.

  const DROP_ATTEMPTS: nat := 64

  /** A ring has at least one slot, and the semaphores bound their count by the largest int. */
  const SEMAPHORE_MAX: nat := 0x7fff_ffff
  type Capacity = n: nat | 1 <= n <= SEMAPHORE_MAX witness 1

  datatype Overflow = Bounded | DropOldest

  datatype Config = Config(capacity: Capacity, category: Category, policy: Policy, overflow: Overflow) {
    /** send_mutex_ of the MPSC ring, overwrite_mutex_ of the MPMC ring that drops. */
    predicate SendsLock() { category.MPSC? || (category.MPMC? && overflow.DropOldest?) }

    /** read_mutex_ of the SPMC ring. */
    predicate ReadsLock() { category.SPMC? }

    /** Slots of the bounded MPMC ring are handed out as tickets. */
    predicate Tickets() { category.MPMC? && overflow.Bounded? }
  }

  datatype Op<V> = Send(v: V) | TrySend(v: V) | Read | TryRead

  datatype Result<V> = NoCall | Sent | Got(value: V) | Refused | Nothing | ThrewRole | ThrewDeadlock

  /** The reserved index of a guard. */
  datatype Slot = NoTicket | Ticket(index: nat)

  datatype Pc<V> =
    | Done(result: Result<V>)
    // SendPrework: the deadlock probe, then the guard of the category
    | SendProbe(v: V, blocking: bool)
    | SetMode(v: V, blocking: bool)
    | SendAcquire(v: V, blocking: bool)
    | SendTicket(v: V, blocking: bool)
    | SendLock(v: V, blocking: bool)
    // the try form of the bounded ring looks at the counter again, and may cancel
    | SendCheck(v: V, slot: Slot)
    | SendCancelUnlock
    | SendCancelRelease
    // the ring that drops: a permit if there is one, then AdvanceHeadForOverwriteDrop if the counter says full
    | SendCredit(v: V)
    | DropFull(v: V)
    | DropLoad(v: V)
    | DropTest(v: V, head: nat, attempt: nat)
    | DropCas(v: V, head: nat, attempt: nat)
    | DropSub(v: V)
    // StoreMessage: WriteTail, the guard's destructor, the counter
    | LoadTail(v: V, slot: Slot, notify: bool)
    | WriteSlot(v: V, index: nat, slot: Slot, notify: bool)
    | SetTail(v: V, index: nat, notify: bool)
    | SendRelease
    | SendUnlock
    | SendCount
    // ReadPrework
    | ReadProbe(blocking: bool)
    | ReadMode(blocking: bool)
    | ReadLock(blocking: bool)
    | ReadAcquire(blocking: bool, tickets: bool)
    | ReadGiveUp
    | ReadTicket(blocking: bool)
    | ReadCheck(slot: Slot)
    | ReadCancelRelease
    | ReadCancelUnlock
    // PopMessage: ReadHead, the counter, the guard's destructor
    | ReadSlot(index: nat)
    // lost counts the compare-and-swaps of this read that failed
    | LoadHead
    | MoveHead(head: nat, lost: nat)
    | CasHead(head: nat, value: V, lost: nat)
    | ReadCount(value: V)
    | ReadRelease(value: V)
    | ReadUnlock(value: V)

  datatype Mutex = Free | HeldBy(t: nat)

  /** The fields of the object. free and occupied are the permits of the two semaphores. */
  datatype Shared<V> = Shared(
    free: int, occupied: int, sendMutex: Mutex, readMutex: Mutex,
    head: nat, tail: nat, buffer: seq<V>, count: int, writeSeq: nat, readSeq: nat, overwriteMode: bool)

  /** moved is what a message becomes when it is moved out of: itself for a type that is copied. */
  datatype State<!V> =
    State(config: Config, moved: V -> V, sh: Shared<V>, roles: map<nat, Role>, pc: map<nat, Pc<V>>)

  /** Weak is a weak compare-and-swap, a try_acquire or a try_lock that fails without cause. */
  datatype Label<V> = Begin(t: nat, op: Op<V>) | Step(t: nat) | Weak(t: nat)

  predicate Sending<V>(pc: Pc<V>) {
    || pc.SendProbe? || pc.SetMode? || pc.SendAcquire? || pc.SendTicket? || pc.SendLock?
    || pc.SendCheck? || pc.SendCancelUnlock? || pc.SendCancelRelease?
    || pc.SendCredit? || pc.DropFull? || pc.DropLoad? || pc.DropTest? || pc.DropCas? || pc.DropSub?
    || pc.LoadTail? || pc.WriteSlot? || pc.SetTail? || pc.SendRelease? || pc.SendUnlock? || pc.SendCount?
  }

  predicate Reading<V>(pc: Pc<V>) { !pc.Done? && !Sending(pc) }

  predicate Sends<V>(op: Op<V>) { op.Send? || op.TrySend? }

  predicate IsFull<V>(c: Config, sh: Shared<V>) { SizeT(sh.count) >= c.capacity }

  predicate IsEmpty<V>(sh: Shared<V>) { SizeT(sh.count) == 0 }

  /** The resource a step asks for is there. */
  predicate Available<V>(sh: Shared<V>, pc: Pc<V>) {
    match pc
    case SendAcquire(_, _) => sh.free > 0
    case SendCredit(_) => sh.free > 0
    case SendLock(_, _) => sh.sendMutex == Free
    case ReadLock(_) => sh.readMutex == Free
    case ReadAcquire(_, _) => sh.occupied > 0
    case CasHead(head, _, _) => sh.head == head
    case DropCas(_, head, _) => sh.head == head
    case _ => true
  }

  /** The step has a branch for failing: a try form, or a compare-and-swap loop. */
  predicate CanFail<V>(c: Config, pc: Pc<V>) {
    match pc
    case SendAcquire(_, blocking) => !blocking
    case SendLock(_, blocking) => !blocking && c.overflow.DropOldest?
    case SendCredit(_) => true
    case ReadLock(blocking) => !blocking
    case ReadAcquire(blocking, _) => !blocking
    case CasHead(_, _, _) => true
    case DropCas(_, _, _) => true
    case _ => false
  }

  /** Single producer and single consumer are promises of the callers. */
  ghost predicate MayBegin<V>(s: State<V>, op: Op<V>) {
    && (Sends(op) && SingleProducer(s.config.category) ==> forall u | u in s.pc :: !Sending(s.pc[u]))
    && (!Sends(op) && SingleConsumer(s.config.category) ==> forall u | u in s.pc :: !Reading(s.pc[u]))
  }

  ghost predicate Enabled<V>(s: State<V>, l: Label<V>) {
    l.t in s.pc &&
    match l
    case Begin(t, op) => s.pc[t].Done? && MayBegin(s, op)
    case Step(t) => !s.pc[t].Done? && (Available(s.sh, s.pc[t]) || CanFail(s.config, s.pc[t]))
    case Weak(t) => CanFail(s.config, s.pc[t])
  }

  function Direction<V>(op: Op<V>): Role { if Sends(op) then Producer else Consumer }

  /** AccountThreads and the start of the pipelines. */
  function Start<V>(s: State<V>, t: nat, op: Op<V>): Pc<V> {
    if Throws(s.config.policy, RoleOf(s.roles, t), Direction(op)) then Done(ThrewRole)
    else
      match op
      case Send(v) => SendProbe(v, true)
      case TrySend(v) => SendProbe(v, false)
      case Read => ReadProbe(true)
      case TryRead => ReadProbe(false)
  }

  /** CheckSendDeadlockPossibility and CheckReadDeadlockPossibility. */
  predicate Alarm<V>(s: State<V>, t: nat, sending: bool) {
    RoleOf(s.roles, t) == Both && if sending then IsFull(s.config, s.sh) else IsEmpty(s.sh)
  }

  /** The first step of the guard that a send takes. */
  function SendGuard<V>(c: Config, v: V, blocking: bool): Pc<V> {
    if c.overflow.Bounded? then SendAcquire(v, blocking)
    else if c.SendsLock() then SendLock(v, blocking)
    else SendCredit(v)
  }

  /** A bounded send that has its permit: through to the store, or to the try form's second look. */
  function Admitted<V>(v: V, blocking: bool, slot: Slot): Pc<V> {
    if blocking then LoadTail(v, slot, true) else SendCheck(v, slot)
  }

  function SendNext<V>(s: State<V>, t: nat): Pc<V>
    requires t in s.pc
  {
    match s.pc[t]
    case SendProbe(v, blocking) =>
      if Alarm(s, t, true) && !blocking then Done(Refused)
      else if Alarm(s, t, true) && !s.config.policy.NoException? then Done(ThrewDeadlock)
      else if s.config.category.MPMC? then SetMode(v, blocking)
      else SendGuard(s.config, v, blocking)
    case SetMode(v, blocking) => SendGuard(s.config, v, blocking)
    case SendAcquire(v, blocking) =>
      if s.config.SendsLock() then SendLock(v, blocking)
      else if s.config.Tickets() then SendTicket(v, blocking)
      else Admitted(v, blocking, NoTicket)
    case SendTicket(v, blocking) => Admitted(v, blocking, Ticket(s.sh.writeSeq % s.config.capacity))
    case SendLock(v, blocking) =>
      if s.config.overflow.Bounded? then Admitted(v, blocking, NoTicket) else SendCredit(v)
    case SendCheck(v, slot) =>
      if !IsFull(s.config, s.sh) then LoadTail(v, slot, true)
      else if s.config.SendsLock() then SendCancelUnlock
      else SendCancelRelease
    case SendCancelUnlock => SendCancelRelease
    case SendCancelRelease => Done(Refused)
    case SendCredit(v) => DropFull(v)
    case DropFull(v) => if IsFull(s.config, s.sh) then DropLoad(v) else LoadTail(v, NoTicket, true)
    case DropLoad(v) => DropTest(v, s.sh.head, 0)
    case DropTest(v, head, attempt) =>
      if attempt < DROP_ATTEMPTS && IsFull(s.config, s.sh) then DropCas(v, head, attempt)
      else LoadTail(v, NoTicket, true)
    case DropCas(v, _, _) => DropSub(v)
    case DropSub(v) => LoadTail(v, NoTicket, false)
    case LoadTail(v, slot, notify) => WriteSlot(v, if slot.Ticket? then slot.index else s.sh.tail, slot, notify)
    case WriteSlot(v, index, slot, notify) =>
      if slot.NoTicket? then SetTail(v, index, notify) else Published(s.config, notify)
    case SetTail(_, _, notify) => Published(s.config, notify)
    case SendRelease => if s.config.SendsLock() then SendUnlock else SendCount
    case SendUnlock => SendCount
    case SendCount => Done(Sent)
    case pc => pc
  }

  /** The destructor of the send guard: release the permit unless told not to, unlock if it locked. */
  function Published<V>(c: Config, notify: bool): Pc<V> {
    if notify then SendRelease else if c.SendsLock() then SendUnlock else SendCount
  }

  /** A read that has its permit. */
  function Holds<V>(blocking: bool, slot: Slot): Pc<V> {
    if !blocking then ReadCheck(slot) else if slot.Ticket? then ReadSlot(slot.index) else LoadHead
  }

  function ReadNext<V>(s: State<V>, t: nat): Pc<V>
    requires t in s.pc
  {
    match s.pc[t]
    case ReadProbe(blocking) =>
      if Alarm(s, t, false) && !blocking then Done(Nothing)
      else if Alarm(s, t, false) && !s.config.policy.NoException? then Done(ThrewDeadlock)
      else if s.config.category.MPMC? then ReadMode(blocking)
      else if s.config.ReadsLock() then ReadLock(blocking)
      else ReadAcquire(blocking, false)
    case ReadMode(blocking) => ReadAcquire(blocking, !s.sh.overwriteMode)
    case ReadLock(blocking) => ReadAcquire(blocking, false)
    case ReadAcquire(blocking, tickets) => if tickets then ReadTicket(blocking) else Holds(blocking, NoTicket)
    case ReadGiveUp => Done(Nothing)
    case ReadTicket(blocking) => Holds(blocking, Ticket(s.sh.readSeq % s.config.capacity))
    case ReadCheck(slot) => if IsEmpty(s.sh) then ReadCancelRelease else Holds(true, slot)
    case ReadCancelRelease => if s.config.ReadsLock() then ReadCancelUnlock else Done(Nothing)
    case ReadCancelUnlock => Done(Nothing)
    case ReadSlot(index) => if index < |s.sh.buffer| then ReadCount(s.sh.buffer[index]) else ReadSlot(index)
    case LoadHead => MoveHead(s.sh.head, 0)
    case MoveHead(head, lost) =>
      if head < |s.sh.buffer| then CasHead(head, s.sh.buffer[head], lost) else MoveHead(head, lost)
    case CasHead(_, value, _) => ReadCount(value)
    case ReadCount(value) => ReadRelease(value)
    case ReadRelease(value) => if s.config.ReadsLock() then ReadUnlock(value) else Done(Got(value))
    case ReadUnlock(value) => Done(Got(value))
    case pc => pc
  }

  /** Where a failed try or a failed compare-and-swap goes. */
  function Failed<V>(s: State<V>, t: nat): Pc<V>
    requires t in s.pc
  {
    match s.pc[t]
    case SendAcquire(_, _) => Done(Refused)
    case SendLock(_, _) => Done(Refused)
    case SendCredit(v) => DropFull(v)
    case DropCas(v, _, attempt) => DropTest(v, s.sh.head, attempt + 1)
    case ReadLock(_) => Done(Nothing)
    case ReadAcquire(_, _) => if s.config.ReadsLock() then ReadGiveUp else Done(Nothing)
    case CasHead(_, _, lost) => MoveHead(s.sh.head, lost + 1)
    case pc => pc
  }

  /** The step goes through, as opposed to a call or a failed attempt. */
  predicate Succeeds<V>(s: State<V>, l: Label<V>)
    requires l.t in s.pc
  {
    l.Step? && Available(s.sh, s.pc[l.t])
  }

  function Target<V>(s: State<V>, l: Label<V>): Pc<V>
    requires l.t in s.pc
  {
    if l.Begin? then Start(s, l.t, l.op)
    else if !Succeeds(s, l) then Failed(s, l.t)
    else if Sending(s.pc[l.t]) then SendNext(s, l.t)
    else ReadNext(s, l.t)
  }

  function Next(c: Config, index: nat): nat { (index + 1) % c.capacity }

  function Put<V>(s: seq<V>, i: nat, v: V): seq<V> { if i < |s| then s[i := v] else s }

  function SendMemory<V>(c: Config, sh: Shared<V>, t: nat, pc: Pc<V>): Shared<V> {
    match pc
    case SetMode(_, _) => sh.(overwriteMode := c.overflow.DropOldest?)
    case SendAcquire(_, _) => sh.(free := sh.free - 1)
    case SendCredit(_) => sh.(free := sh.free - 1)
    case SendLock(_, _) => sh.(sendMutex := HeldBy(t))
    case SendTicket(_, _) => sh.(writeSeq := sh.writeSeq + 1)
    case SendCancelUnlock => sh.(sendMutex := Free)
    case SendCancelRelease => sh.(free := sh.free + 1)
    case DropCas(_, head, _) => sh.(head := Next(c, head))
    case DropSub(_) => sh.(count := sh.count - 1)
    case WriteSlot(v, index, _, _) => sh.(buffer := Put(sh.buffer, index, v))
    case SetTail(_, index, _) => sh.(tail := Next(c, index))
    case SendRelease => sh.(occupied := sh.occupied + 1)
    case SendUnlock => sh.(sendMutex := Free)
    case SendCount => sh.(count := sh.count + 1)
    case _ => sh
  }

  /** What is left of v after n moves. */
  function Worn<V>(moved: V -> V, n: nat, v: V): V { if n == 0 then v else moved(Worn(moved, n - 1, v)) }

  /** The ring after the message in slot i was moved out of. */
  function MovedOut<V>(moved: V -> V, s: seq<V>, i: nat): seq<V> { if i < |s| then s[i := moved(s[i])] else s }

  function ReadMemory<V>(c: Config, moved: V -> V, sh: Shared<V>, t: nat, pc: Pc<V>): Shared<V> {
    match pc
    case ReadLock(_) => sh.(readMutex := HeldBy(t))
    case ReadAcquire(_, _) => sh.(occupied := sh.occupied - 1)
    case ReadGiveUp => sh.(readMutex := Free)
    case ReadTicket(_) => sh.(readSeq := sh.readSeq + 1)
    case ReadCancelRelease => sh.(occupied := sh.occupied + 1)
    case ReadCancelUnlock => sh.(readMutex := Free)
    case ReadSlot(index) => sh.(buffer := MovedOut(moved, sh.buffer, index))
    case MoveHead(head, _) => sh.(buffer := MovedOut(moved, sh.buffer, head))
    case CasHead(head, _, _) => sh.(head := Next(c, head))
    case ReadCount(_) => sh.(count := sh.count - 1)
    case ReadRelease(_) => sh.(free := sh.free + 1)
    case ReadUnlock(_) => sh.(readMutex := Free)
    case _ => sh
  }

  /** The fields after a step: a call or a failed attempt changes none. */
  function Memory<V>(s: State<V>, l: Label<V>): Shared<V>
    requires l.t in s.pc
  {
    if !Succeeds(s, l) then s.sh
    else if Sending(s.pc[l.t]) then SendMemory(s.config, s.sh, l.t, s.pc[l.t])
    else ReadMemory(s.config, s.moved, s.sh, l.t, s.pc[l.t])
  }

  function RolesAfter<V>(s: State<V>, l: Label<V>): map<nat, Role> {
    if l.Begin?
    then s.roles[l.t := Account(s.config.policy, RoleOf(s.roles, l.t), Direction(l.op))]
    else s.roles
  }

  ghost function Apply<V>(s: State<V>, l: Label<V>): State<V>
    requires Enabled(s, l)
  {
    State(s.config, s.moved, Memory(s, l), RolesAfter(s, l), s.pc[l.t := Target(s, l)])
  }

  ghost predicate Initial<V>(s: State<V>) {
    && |s.sh.buffer| == s.config.capacity
    && s.sh == Shared(s.config.capacity, 0, Free, Free, 0, 0, s.sh.buffer, 0, 0, 0, false)
    && s.roles == map[]
    && forall t | t in s.pc :: s.pc[t] == Done(NoCall)
  }

  ghost predicate IsRun<V>(r: seq<State<V>>, ls: seq<Label<V>>) {
    && |r| == |ls| + 1
    && Initial(r[0])
    && forall i | 0 <= i < |ls| :: Enabled(r[i], ls[i]) && r[i + 1] == Apply(r[i], ls[i])
  }

  /** A run as one value. */
  datatype Story<!V> = Story(states: seq<State<V>>, labels: seq<Label<V>>) {
    ghost predicate Runs() { IsRun(states, labels) }

    ghost function Last(): State<V>
      requires Runs()
    {
      states[|labels|]
    }
  }

  lemma Begins<V>(s: State<V>) returns (h: Story<V>)
    requires Initial(s)
    ensures h.Runs() && h.Last() == s && h.states[0] == s
  {
    h := Story([s], []);
  }

  lemma Advance<V>(h: Story<V>, l: Label<V>) returns (h': Story<V>)
    requires h.Runs() && Enabled(h.Last(), l)
    ensures h'.Runs() && h'.Last() == Apply(h.Last(), l) && h'.states[0] == h.states[0]
    ensures h'.labels == h.labels + [l] && h'.states == h.states + [Apply(h.Last(), l)]
  {
    hide Apply, Enabled, Initial;
    h' := Story(h.states + [Apply(h.Last(), l)], h.labels + [l]);
    forall i | 0 <= i < |h'.labels|
      ensures Enabled(h'.states[i], h'.labels[i]) && h'.states[i + 1] == Apply(h'.states[i], h'.labels[i])
    {
      if i < |h.labels| {
        assert Enabled(h.states[i], h.labels[i]) && h.states[i + 1] == Apply(h.states[i], h.labels[i]);
      }
    }
  }
}
