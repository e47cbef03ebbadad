/** The bounded monitor queue of lib/deque_bounded_message_queue.hpp as an interleaved step system. */
module Monitor {
  import opened Roles

  // The system has a mutex, two condition variables with spurious wake-ups, barging threads, close, and messages
  // whose copy or move can throw. rollbackNotifies says whether a throwing store or pop passes its wake-up on, as
  // this queue does and the priority queue of lib/min-heap_queue.hpp does not.

  datatype Op<V> = Send(v: V) | TrySend(v: V) | Read | TryRead | Close

  datatype Result<V> =
    | NoCall | Sent | Got(value: V) | Refused | Nothing | Closed
    | ThrewRole | ThrewDeadlock | ThrewClosed | ThrewMessage

  datatype Pc<V> =
    | Done(result: Result<V>)
    // SendPrework: the deadlock probe, then SyncAndOverflowPrework or its try form
    | SendProbe(v: V, blocking: bool)
    | SendLock(v: V)
    | SendEnter(v: V)
    | SendWait(v: V, woken: bool)
    | SendSleep(v: V)
    | SendWoken(v: V)
    | SendTake(v: V, woken: bool)
    | TrySendLock(v: V)
    | TrySendTest(v: V)
    // StoreMessage and SendPostwork
    | Store(v: V)
    | StoreThrew
    | StoreDone
    | NotifySent
    | NotifyUnsent
    // ReadPrework: the probe, then SyncAndUnderflowPrework or its try form
    | ReadProbe(blocking: bool)
    | ReadLock
    | ReadWait(woken: bool)
    | ReadSleep
    | ReadWoken
    | ReadTake(woken: bool)
    | TryReadLock
    | TryReadTest
    // PopMessage and ReadPostwork
    | Pop
    | PopThrew
    | PopDone(value: V)
    | NotifyRead(value: V)
    | NotifyUnread
    // Close
    | CloseLock
    | CloseSet
    | CloseNotFull
    | CloseNotEmpty

  datatype Mutex = Free | HeldBy(t: nat)

  /** The fields of the object. */
  datatype Shared<V> = Shared(free: int, used: int, buffer: seq<V>, closed: bool, mutex: Mutex)

  datatype Config = Config(capacity: nat, category: Category, policy: Policy, rollbackNotifies: bool)

  datatype State<V> = State(config: Config, sh: Shared<V>, roles: map<nat, Role>, pc: map<nat, Pc<V>>)

  /** NotifyOne names the sleeper that notify_one wakes; Spurious wakes one without cause; Fail is a step of
      StoreMessage or PopMessage in which the message throws. */
  datatype Label<V> =
    | Begin(t: nat, op: Op<V>)
    | Step(t: nat)
    | NotifyOne(t: nat, w: nat)
    | Fail(t: nat)
    | Spurious(t: nat)

  predicate NotifiesSenders<V>(pc: Pc<V>) { pc.NotifyRead? || pc.NotifyUnsent? }

  predicate NotifiesReaders<V>(pc: Pc<V>) { pc.NotifySent? || pc.NotifyUnread? }

  ghost predicate SomeoneSleeps<V>(s: State<V>, senders: bool) {
    exists w :: w in s.pc && (if senders then s.pc[w].SendSleep? else s.pc[w].ReadSleep?)
  }

  predicate Locks<V>(pc: Pc<V>) {
    || pc.SendLock? || pc.SendWoken? || pc.TrySendLock? || pc.ReadLock? || pc.ReadWoken? || pc.TryReadLock?
    || pc.CloseLock?
  }

  /** The probe takes the mutex only for the categories and roles it can answer for. */
  predicate ProbeLocks<V>(s: State<V>, t: nat)
    requires t in s.pc
  {
    && ((s.pc[t].SendProbe? && SingleConsumer(s.config.category))
        || (s.pc[t].ReadProbe? && SingleProducer(s.config.category)))
    && t in s.roles && s.roles[t] == Both
  }

  /** CheckSendDeadlockPossibility and CheckReadDeadlockPossibility. */
  predicate Alarm<V>(s: State<V>, t: nat)
    requires t in s.pc
  {
    ProbeLocks(s, t) && if s.pc[t].SendProbe? then s.sh.free == 0 else s.sh.used == 0
  }

  ghost predicate Enabled<V>(s: State<V>, l: Label<V>) {
    l.t in s.pc &&
    match l
    case Begin(t, _) => s.pc[t].Done?
    case NotifyOne(t, w) =>
      && w in s.pc
      && if NotifiesSenders(s.pc[t]) then s.pc[w].SendSleep? else NotifiesReaders(s.pc[t]) && s.pc[w].ReadSleep?
    case Fail(t) => s.pc[t].Store? || s.pc[t].Pop?
    case Spurious(t) => s.pc[t].SendSleep? || s.pc[t].ReadSleep?
    case Step(t) =>
      var pc := s.pc[t];
      && !pc.Done? && !pc.SendSleep? && !pc.ReadSleep?
      && (Locks(pc) || ProbeLocks(s, t) ==> s.sh.mutex == Free)
      && (NotifiesSenders(pc) ==> !SomeoneSleeps(s, true))
      && (NotifiesReaders(pc) ==> !SomeoneSleeps(s, false))
  }

  function Direction<V>(op: Op<V>): Role { if op.Send? || op.TrySend? then Producer else Consumer }

  /** AccountThreads and the start of the pipelines; Close is outside them. */
  function Start<V>(s: State<V>, t: nat, op: Op<V>): Pc<V> {
    if !op.Close? && Throws(s.config.policy, RoleOf(s.roles, t), Direction(op)) then Done(ThrewRole)
    else
      match op
      case Send(v) => SendProbe(v, true)
      case TrySend(v) => SendProbe(v, false)
      case Read => ReadProbe(true)
      case TryRead => ReadProbe(false)
      case Close => CloseLock
  }

  function SendTarget<V>(s: State<V>, t: nat): Pc<V>
    requires t in s.pc
  {
    match s.pc[t]
    case SendProbe(v, blocking) =>
      if Alarm(s, t) && !blocking then Done(Refused)
      else if Alarm(s, t) && !s.config.policy.NoException? then Done(ThrewDeadlock)
      else if blocking then SendLock(v) else TrySendLock(v)
    case SendLock(v) => SendEnter(v)
    case SendEnter(v) => if s.sh.closed then Done(ThrewClosed) else SendWait(v, false)
    case SendWait(v, woken) => if s.sh.closed || s.sh.free > 0 then SendTake(v, woken) else SendSleep(v)
    case SendWoken(v) => SendWait(v, true)
    case SendTake(v, _) => if s.sh.closed then Done(ThrewClosed) else Store(v)
    case TrySendLock(v) => TrySendTest(v)
    case TrySendTest(v) => if s.sh.closed || s.sh.free == 0 then Done(Refused) else Store(v)
    case Store(_) => StoreDone
    case StoreThrew => if s.config.rollbackNotifies then NotifyUnsent else Done(ThrewMessage)
    case StoreDone => NotifySent
    case NotifySent => Done(Sent)
    case NotifyUnsent => Done(ThrewMessage)
    case pc => pc
  }

  function ReadTarget<V>(s: State<V>, t: nat): Pc<V>
    requires t in s.pc
  {
    match s.pc[t]
    case ReadProbe(blocking) =>
      if Alarm(s, t) && !blocking then Done(Nothing)
      else if Alarm(s, t) && !s.config.policy.NoException? then Done(ThrewDeadlock)
      else if blocking then ReadLock else TryReadLock
    case ReadLock => ReadWait(false)
    case ReadWait(woken) => if s.sh.closed || s.sh.used > 0 then ReadTake(woken) else ReadSleep
    case ReadWoken => ReadWait(true)
    case ReadTake(_) => if s.sh.used == 0 then Done(ThrewClosed) else Pop
    case TryReadLock => TryReadTest
    case TryReadTest => if s.sh.used == 0 then Done(Nothing) else Pop
    case Pop => if s.sh.buffer != [] then PopDone(s.sh.buffer[0]) else Pop
    case PopThrew => if s.config.rollbackNotifies then NotifyUnread else Done(ThrewMessage)
    case PopDone(value) => NotifyRead(value)
    case NotifyRead(value) => Done(Got(value))
    case NotifyUnread => Done(ThrewMessage)
    case CloseLock => CloseSet
    case CloseSet => if s.sh.closed then Done(Closed) else CloseNotFull
    case CloseNotFull => CloseNotEmpty
    case CloseNotEmpty => Done(Closed)
    case pc => pc
  }

  predicate Sending<V>(pc: Pc<V>) {
    || pc.SendProbe? || pc.SendLock? || pc.SendEnter? || pc.SendWait? || pc.SendSleep? || pc.SendWoken?
    || pc.SendTake? || pc.TrySendLock? || pc.TrySendTest? || pc.Store? || pc.StoreThrew? || pc.StoreDone?
    || pc.NotifySent? || pc.NotifyUnsent?
  }

  function Target<V>(s: State<V>, l: Label<V>): Pc<V>
    requires l.t in s.pc
  {
    match l
    case Begin(t, op) => Start(s, t, op)
    case Fail(t) => if s.pc[t].Store? then StoreThrew else PopThrew
    case Spurious(t) => WakeUp(s.pc[t])
    case _ => if Sending(s.pc[l.t]) then SendTarget(s, l.t) else ReadTarget(s, l.t)
  }

  /** Where a sleeper goes when it leaves the wait set. */
  function WakeUp<V>(pc: Pc<V>): Pc<V> {
    match pc
    case SendSleep(v) => SendWoken(v)
    case ReadSleep => ReadWoken
    case _ => pc
  }

  /** The fields after a step: every access is made by the thread that holds the mutex. */
  function Memory<V>(s: State<V>, l: Label<V>): Shared<V>
    requires l.t in s.pc
  {
    var sh := s.sh;
    if !l.Step? then sh else
      match s.pc[l.t]
      case SendLock(_) => sh.(mutex := HeldBy(l.t))
      case SendEnter(_) => if sh.closed then sh.(mutex := Free) else sh
      case SendWait(_, _) => if sh.closed || sh.free > 0 then sh else sh.(mutex := Free)
      case SendWoken(_) => sh.(mutex := HeldBy(l.t))
      case SendTake(_, _) => if sh.closed then sh.(mutex := Free) else sh.(free := sh.free - 1)
      case TrySendLock(_) => sh.(mutex := HeldBy(l.t))
      case TrySendTest(_) => if sh.closed || sh.free == 0 then sh.(mutex := Free) else sh.(free := sh.free - 1)
      case Store(v) => sh.(buffer := sh.buffer + [v])
      case StoreThrew => sh.(free := sh.free + 1, mutex := Free)
      case StoreDone => sh.(used := sh.used + 1, mutex := Free)
      case ReadLock => sh.(mutex := HeldBy(l.t))
      case ReadWait(_) => if sh.closed || sh.used > 0 then sh else sh.(mutex := Free)
      case ReadWoken => sh.(mutex := HeldBy(l.t))
      case ReadTake(_) => if sh.used == 0 then sh.(mutex := Free) else sh.(used := sh.used - 1)
      case TryReadLock => sh.(mutex := HeldBy(l.t))
      case TryReadTest => if sh.used == 0 then sh.(mutex := Free) else sh.(used := sh.used - 1)
      case Pop => if sh.buffer != [] then sh.(buffer := sh.buffer[1..]) else sh
      case PopThrew => sh.(used := sh.used + 1, mutex := Free)
      case PopDone(_) => sh.(free := sh.free + 1, mutex := Free)
      case CloseLock => sh.(mutex := HeldBy(l.t))
      case CloseSet => sh.(closed := true, mutex := Free)
      case _ => sh
  }

  /** The sleepers a step takes out of a wait set, besides a thread waking itself. */
  predicate Wakes<V>(s: State<V>, l: Label<V>, u: nat)
    requires l.t in s.pc && u in s.pc
  {
    match l
    case NotifyOne(_, w) => u == w
    case Step(t) => (s.pc[t].CloseNotFull? && s.pc[u].SendSleep?) || (s.pc[t].CloseNotEmpty? && s.pc[u].ReadSleep?)
    case _ => false
  }

  function Threads<V>(s: State<V>, l: Label<V>): map<nat, Pc<V>>
    requires l.t in s.pc
  {
    map u | u in s.pc :: if u == l.t then Target(s, l) else if Wakes(s, l, u) then WakeUp(s.pc[u]) else s.pc[u]
  }

  function RolesAfter<V>(s: State<V>, l: Label<V>): map<nat, Role> {
    if l.Begin? && !l.op.Close?
    then s.roles[l.t := Account(s.config.policy, RoleOf(s.roles, l.t), Direction(l.op))]
    else s.roles
  }

  ghost function Apply<V>(s: State<V>, l: Label<V>): State<V>
    requires Enabled(s, l)
  {
    State(s.config, Memory(s, l), RolesAfter(s, l), Threads(s, l))
  }

  ghost predicate Initial<V>(s: State<V>) {
    && s.config.capacity >= 1
    && s.sh == Shared(s.config.capacity, 0, [], false, Free)
    && s.roles == map[]
    && forall t | t in s.pc :: s.pc[t] == Done(NoCall)
  }

  ghost predicate IsRun<V>(r: seq<State<V>>, ls: seq<Label<V>>) {
    && |r| == |ls| + 1
    && Initial(r[0])
    && forall i | 0 <= i < |ls| :: Enabled(r[i], ls[i]) && r[i + 1] == Apply(r[i], ls[i])
  }

  /** A run as one value. */
  datatype Story<V> = Story(states: seq<State<V>>, labels: seq<Label<V>>) {
    ghost predicate Runs() { IsRun(states, labels) }

    ghost function Last(): State<V>
      requires Runs()
    {
      states[|labels|]
    }
  }

  lemma Begins<V>(s: State<V>) returns (h: Story<V>)
    requires Initial(s)
    ensures h.Runs() && h.Last() == s && h.states[0] == s
  {
    h := Story([s], []);
  }

  lemma Advance<V>(h: Story<V>, l: Label<V>) returns (h': Story<V>)
    requires h.Runs() && Enabled(h.Last(), l)
    ensures h'.Runs() && h'.Last() == Apply(h.Last(), l) && h'.states[0] == h.states[0]
  {
    hide Apply, Enabled, Initial;
    h' := Story(h.states + [Apply(h.Last(), l)], h.labels + [l]);
    forall i | 0 <= i < |h'.labels|
      ensures Enabled(h'.states[i], h'.labels[i]) && h'.states[i + 1] == Apply(h'.states[i], h'.labels[i])
    {
      if i < |h.labels| {
        assert Enabled(h.states[i], h.labels[i]) && h.states[i + 1] == Apply(h.states[i], h.labels[i]);
      }
    }
  }
}
