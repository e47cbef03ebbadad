/** The circular queue objects of lib/circular, one call at a time. */
module CircularQueue {
  import opened Options
  import opened Roles
  import opened Ring
  import opened Slots
  import opened CircularSpec

  // The ring and its guards are updated in place as the code does it, in every category and under both policies.
  // What an atomic may do on its own, a try or a weak compare-and-swap failing without cause, is a parameter of
  // the call; what a message becomes when it is moved out of is a parameter of the queue.

  /** tryFails: a try_acquire or try_lock that may refuse the call fails; creditFails: the try_acquire of an
      overwriting send fails; lostRaces: how often a weak compare-and-swap fails in a row. */
  datatype Chance = Chance(tryFails: bool, creditFails: bool, lostRaces: nat)

  datatype SendGuard =
    SendGuard(mode: Overflow, spaceAcquired: bool, mutexAcquired: bool, notifyOccupied: bool, reserved: Slot)

  datatype ReadGuard = ReadGuard(spaceAcquired: bool, mutexAcquired: bool, reserved: Slot)

  class CircularQueue<V> {
    const config: Config
    const moved: V -> V
    const buffer: array<V>
    var free: int
    var occupied: int
    var sendMutex: Mutex
    var readMutex: Mutex
    var head: nat
    var tail: nat
    var count: int
    var writeSeq: nat
    var readSeq: nat
    var overwriteMode: bool
    var roles: map<nat, Role>

    ghost function View(): Shared<V>
      reads this, buffer
    {
      Shared(free, occupied, sendMutex, readMutex, head, tail, buffer[..], count, writeSeq, readSeq, overwriteMode)
    }

    ghost predicate Valid()
      reads this, buffer
    {
      AtRest(config, View())
    }

    ghost function Queue(): seq<V>
      reads this, buffer
      requires Valid()
    {
      Contents(config, View())
    }

    constructor (config: Config, moved: V -> V, default: V)
      ensures Valid() && Queue() == [] && this.config == config && this.moved == moved && roles == map[]
              && fresh(buffer)
    {
      this.config, this.moved := config, moved;
      buffer := new V[config.capacity](_ => default);
      free, occupied, sendMutex, readMutex := config.capacity, 0, Free, Free;
      head, tail, count, writeSeq, readSeq, overwriteMode, roles := 0, 0, 0, 0, 0, false, map[];
    }

    /** The guard of a bounded send, which may hold a ticket. */
    function BoundedGuard(ticket: nat): SendGuard {
      SendGuard(Bounded, true, config.SendsLock(), true,
                if config.Tickets() then Ticket(ticket % config.capacity) else NoTicket)
    }

    /** AcquireSendBoundedBlock, and TryAcquireSendBounded when the permit is there. */
    method AcquireSendBounded(t: nat) returns (g: SendGuard)
      requires config.overflow.Bounded? && free > 0 && sendMutex == Free
      modifies this
      ensures g == BoundedGuard(old(writeSeq))
      ensures View() == old(View()).(
                          free := old(free) - 1, sendMutex := if config.SendsLock() then HeldBy(t) else Free,
                          writeSeq := if config.Tickets() then old(writeSeq) + 1 else old(writeSeq),
                          overwriteMode := old(overwriteMode) && !config.category.MPMC?)
      ensures roles == old(roles)
    {
      var reserved := NoTicket;
      if config.category.MPMC? { overwriteMode := false; }
      free := free - 1;
      if config.category.MPMC? {
        reserved := Ticket(writeSeq % config.capacity);
        writeSeq := writeSeq + 1;
      }
      if config.category.MPSC? { sendMutex := HeldBy(t); }
      g := SendGuard(Bounded, true, config.category.MPSC?, true, reserved);
    }

    /** AcquireSendOverwriteOldest, and its try form once it has the mutex. */
    method AcquireSendOverwrite(t: nat, chance: Chance) returns (g: SendGuard)
      requires config.overflow.DropOldest? && sendMutex == Free
      modifies this
      ensures g.mode == DropOldest && g.notifyOccupied && g.reserved == NoTicket
              && g.mutexAcquired == config.SendsLock()
      ensures free == old(free) - if g.spaceAcquired then 1 else 0
      ensures g.spaceAcquired == (old(free) > 0 && !chance.creditFails)
      ensures View() == old(View()).(
                          free := free, sendMutex := if config.SendsLock() then HeldBy(t) else Free,
                          overwriteMode := old(overwriteMode) || config.category.MPMC?)
      ensures roles == old(roles)
    {
      if config.category.MPMC? { overwriteMode := true; }
      var locks := config.category.MPSC? || config.category.MPMC?;
      if locks { sendMutex := HeldBy(t); }
      var space := free > 0 && !chance.creditFails;
      if space { free := free - 1; }
      g := SendGuard(DropOldest, space, locks, true, NoTicket);
    }

    /** The destructor of a send guard: a cancelled one gives its permit back, any other publishes unless it was
        told not to; then the mutex is unlocked. */
    method DestroySendGuard(g: SendGuard, cancelled: bool)
      modifies this
      ensures View() == old(View()).(
                          free := if cancelled && g.spaceAcquired then old(free) + 1 else old(free),
                          occupied := if Publishes(g, cancelled) then old(occupied) + 1 else old(occupied),
                          sendMutex := if g.mutexAcquired then Free else old(sendMutex))
      ensures roles == old(roles)
    {
      if cancelled {
        if g.mutexAcquired { sendMutex := Free; }
        if g.spaceAcquired { free := free + 1; }
        return;
      }
      if g.notifyOccupied && (!config.category.MPMC? || g.mode.DropOldest? || g.spaceAcquired) {
        occupied := occupied + 1;
      }
      if g.mutexAcquired { sendMutex := Free; }
    }

    predicate Publishes(g: SendGuard, cancelled: bool) {
      !cancelled && g.notifyOccupied && (!config.category.MPMC? || g.mode.DropOldest? || g.spaceAcquired)
    }

    /** The bounded TrySyncAndOverflowPrework: a permit, a second look at the counter, and perhaps a cancel, which
        gives back everything but the ticket. */
    method TryAdmitBounded(t: nat, chance: Chance) returns (g: Option<SendGuard>)
      requires config.overflow.Bounded? && sendMutex == Free
      modifies this
      ensures roles == old(roles)
      ensures g.Some? <==> old(free) > 0 && !chance.tryFails && old(count) < config.capacity
      ensures g.Some? ==>
                && g.value == BoundedGuard(old(writeSeq))
                && View() == old(View()).(
                               free := old(free) - 1, sendMutex := if config.SendsLock() then HeldBy(t) else Free,
                               writeSeq := if config.Tickets() then old(writeSeq) + 1 else old(writeSeq),
                               overwriteMode := old(overwriteMode) && !config.category.MPMC?)
      ensures g.None? ==>
                View() == old(View()).(
                            writeSeq := if config.Tickets() && old(free) > 0 && !chance.tryFails
                                        then old(writeSeq) + 1 else old(writeSeq),
                            overwriteMode := old(overwriteMode) && !config.category.MPMC?)
    {
      if free <= 0 || chance.tryFails {
        if config.category.MPMC? { overwriteMode := false; }
        return None;
      }
      var guard := AcquireSendBounded(t);
      if count >= config.capacity {
        DestroySendGuard(guard, true);
        return None;
      }
      return Some(guard);
    }

    /** Nobody else runs, so a compare-and-swap that does not fail on its own succeeds. */
    method AdvanceHeadForOverwriteDrop(lostRaces: nat) returns (dropped: bool)
      modifies this
      ensures dropped <==> old(count) >= config.capacity && lostRaces < DROP_ATTEMPTS
      ensures View() == if dropped then Dropped(config, old(View())) else old(View())
      ensures roles == old(roles)
    {
      var h := head;
      for attempt := 0 to DROP_ATTEMPTS
        invariant h == head && View() == old(View()) && roles == old(roles)
        invariant attempt > 0 ==> count >= config.capacity && attempt <= lostRaces
      {
        if count < config.capacity { return false; }
        if attempt >= lostRaces {
          head := (h + 1) % config.capacity;
          count := count - 1;
          return true;
        }
        h := head;
      }
      return false;
    }

    predicate Drops(count: int, chance: Chance) { count >= config.capacity && chance.lostRaces < DROP_ATTEMPTS }

    /** ResolveSendOverflowBlocking of the ring that drops. */
    method ResolveOverflow(g: SendGuard, chance: Chance) returns (g': SendGuard)
      modifies this
      ensures g' == g.(notifyOccupied := g.notifyOccupied && !Drops(old(count), chance))
      ensures View() == if Drops(old(count), chance) then Dropped(config, old(View())) else old(View())
      ensures roles == old(roles)
    {
      g' := g;
      if count >= config.capacity {
        var dropped := AdvanceHeadForOverwriteDrop(chance.lostRaces);
        if dropped { g' := g.(notifyOccupied := false); }
      }
    }

    /** StoreMessage: WriteTail, the guard's destructor, the counter. */
    method StoreMessage(v: V, g: SendGuard)
      requires buffer.Length == config.capacity
      requires if g.reserved.Ticket? then g.reserved.index < config.capacity else tail < config.capacity
      modifies this, buffer
      ensures View() == old(View()).(
                          buffer := old(buffer[..])[(if g.reserved.Ticket? then g.reserved.index else old(tail)) := v],
                          tail := if g.reserved.Ticket? then old(tail) else Next(config, old(tail)),
                          occupied := if Publishes(g, false) then old(occupied) + 1 else old(occupied),
                          sendMutex := if g.mutexAcquired then Free else old(sendMutex), count := old(count) + 1)
      ensures roles == old(roles)
    {
      var index := if g.reserved.Ticket? then g.reserved.index else tail;
      buffer[index] := v;
      if g.reserved.NoTicket? { tail := (index + 1) % config.capacity; }
      DestroySendGuard(g, false);
      count := count + 1;
    }

    /** A full ring whose drop loop has used up its attempts. */
    ghost predicate Overruns(q: seq<V>, o: Outcome<V>, chance: Chance) {
      config.overflow.DropOldest? && o == Ended(Sent) && |q| == config.capacity && chance.lostRaces >= DROP_ATTEMPTS
    }

    /** What follows the admission of a bounded send. */
    method StoreBounded(t: nat, v: V, g: SendGuard, ghost pre: Shared<V>)
      requires AtRest(config, pre) && config.overflow.Bounded? && pre.count < config.capacity
      requires g == BoundedGuard(pre.writeSeq)
      requires View() == pre.(free := pre.free - 1, sendMutex := if config.SendsLock() then HeldBy(t) else Free,
                              writeSeq := if config.Tickets() then pre.writeSeq + 1 else pre.writeSeq)
      modifies this, buffer
      ensures Valid() && Queue() == Contents(config, pre) + [v] && roles == old(roles)
    {
      StoredAppends(config, pre, v, pre.free - 1);
      StoreMessage(v, g);
      assert View() == CircularSpec.Stored(config, pre, v, pre.free - 1, true);
    }

    /** An overwriting send, once it may start: it makes room if the ring is full and stores. */
    method StoreOverwriting(t: nat, v: V, chance: Chance)
      requires Valid() && config.overflow.DropOldest?
      modifies this, buffer
      ensures Valid() <==> !Overruns(old(Queue()), Ended(Sent), chance)
      ensures !Overruns(old(Queue()), Ended(Sent), chance) ==> Queue() == Enqueued(config, old(Queue()), v)
      ensures Overruns(old(Queue()), Ended(Sent), chance) ==> count == occupied == config.capacity + 1
      ensures roles == old(roles)
    {
      ghost var q, pre := Queue(), View().(overwriteMode := overwriteMode || config.category.MPMC?);
      SameRest(config, View(), pre);
      WithinRing(config, pre);
      hide AtRest, Contents, Enqueued;
      RestingMutex(config, pre);
      var g := AcquireSendOverwrite(t, chance);
      ghost var left := free;
      OverwritingEnqueues(config, pre, v, left, chance.lostRaces);
      g := ResolveOverflow(g, chance);
      StoreMessage(v, g);
      assert View() == Overwritten(config, pre, v, left, chance.lostRaces);
    }

    method Send(t: nat, v: V, chance: Chance) returns (o: Outcome<V>)
      requires Valid()
      modifies this, buffer
      ensures o == SendResult(config, RoleOf(roles, t), Throws(config.policy, RoleOf(old(roles), t), Producer),
                              old(Queue()))
      ensures Valid() <==> !Overruns(old(Queue()), o, chance)
      ensures Valid() ==> Queue() == if o == Ended(Sent) then Enqueued(config, old(Queue()), v) else old(Queue())
      ensures !Valid() ==> count == occupied == config.capacity + 1
      ensures RoleOf(roles, t) == Account(config.policy, RoleOf(old(roles), t), Producer)
      ensures forall u | u != t :: RoleOf(roles, u) == RoleOf(old(roles), u)
    {
      var threw, accounted := AccountThreads(config.policy, roles, t, Producer);
      roles := accounted;
      if threw { return Ended(ThrewRole); }
      if RoleOf(roles, t) == Both && count >= config.capacity && !config.policy.NoException? {
        return Ended(ThrewDeadlock);
      }
      if config.overflow.Bounded? {
        if free <= 0 { return Blocks; }
        ghost var pre := View();
        var g := AcquireSendBounded(t);
        StoreBounded(t, v, g, pre);
      } else {
        StoreOverwriting(t, v, chance);
      }
      o := Ended(Sent);
    }

    /** The try form after AccountThreads and the probe. */
    method TryStore(t: nat, v: V, chance: Chance) returns (stored: bool)
      requires Valid()
      modifies this, buffer
      ensures roles == old(roles)
      ensures stored == !(if config.overflow.Bounded? then chance.tryFails || |old(Queue())| >= config.capacity
                          else chance.tryFails && config.SendsLock())
      ensures stored ==> (Valid() <==> !Overruns(old(Queue()), Ended(Sent), chance))
      ensures stored && Valid() ==> Queue() == Enqueued(config, old(Queue()), v)
      ensures !Valid() ==> stored && count == occupied == config.capacity + 1
      ensures !stored ==> Queue() == old(Queue())
    {
      if config.overflow.Bounded? {
        ghost var pre := View();
        var g := TryAdmitBounded(t, chance);
        if g.None? { return false; }
        StoreBounded(t, v, g.value, pre);
        return true;
      }
      if config.category.MPMC? { overwriteMode := true; }
      if (config.category.MPSC? || config.category.MPMC?) && chance.tryFails { return false; }
      StoreOverwriting(t, v, chance);
      stored := true;
    }

    method TrySend(t: nat, v: V, chance: Chance) returns (o: Outcome<V>)
      requires Valid()
      modifies this, buffer
      ensures o == TrySendResult(config, RoleOf(roles, t), Throws(config.policy, RoleOf(old(roles), t), Producer),
                                 old(Queue()), chance.tryFails)
      ensures Valid() <==> !Overruns(old(Queue()), o, chance)
      ensures Valid() ==> Queue() == if o == Ended(Sent) then Enqueued(config, old(Queue()), v) else old(Queue())
      ensures !Valid() ==> count == occupied == config.capacity + 1
      ensures RoleOf(roles, t) == Account(config.policy, RoleOf(old(roles), t), Producer)
      ensures forall u | u != t :: RoleOf(roles, u) == RoleOf(old(roles), u)
    {
      hide AtRest, Contents, Throws, Account;
      ghost var pre := View();
      WithinRing(config, pre);
      var threw, accounted := AccountThreads(config.policy, roles, t, Producer);
      roles := accounted;
      assert View() == pre;
      if threw { return Ended(ThrewRole); }
      if RoleOf(roles, t) == Both && count >= config.capacity { return Ended(Refused); }
      var stored := TryStore(t, v, chance);
      o := Ended(if stored then Sent else Refused);
    }

    predicate DrawsTicket(mode: bool) { config.category.MPMC? && !mode }

    /** The guard of a read. */
    function PermitGuard(mode: bool, ticket: nat): ReadGuard {
      ReadGuard(true, config.ReadsLock(), if DrawsTicket(mode) then Ticket(ticket % config.capacity) else NoTicket)
    }

    /** AcquireReadOperation, and its try form when the permit is there. */
    method AcquireRead(t: nat) returns (g: ReadGuard)
      requires occupied > 0 && readMutex == Free
      modifies this
      ensures g == PermitGuard(old(overwriteMode), old(readSeq))
      ensures View() == old(View()).(
                          occupied := old(occupied) - 1, readMutex := if config.ReadsLock() then HeldBy(t) else Free,
                          readSeq := if DrawsTicket(old(overwriteMode)) then old(readSeq) + 1 else old(readSeq))
      ensures roles == old(roles)
    {
      var reserved := NoTicket;
      if config.category.SPMC? { readMutex := HeldBy(t); }
      occupied := occupied - 1;
      if config.category.MPMC? && !overwriteMode {
        reserved := Ticket(readSeq % config.capacity);
        readSeq := readSeq + 1;
      }
      g := ReadGuard(true, config.category.SPMC?, reserved);
    }

    method DestroyReadGuard(g: ReadGuard, cancelled: bool)
      modifies this
      ensures View() == old(View()).(
                          free := if !cancelled && g.spaceAcquired then old(free) + 1 else old(free),
                          occupied := if cancelled && g.spaceAcquired then old(occupied) + 1 else old(occupied),
                          readMutex := if g.mutexAcquired then Free else old(readMutex))
      ensures roles == old(roles)
    {
      if g.spaceAcquired {
        if cancelled { occupied := occupied + 1; } else { free := free + 1; }
      }
      if g.mutexAcquired { readMutex := Free; }
    }

    /** TrySyncAndUnderflowPrework: a permit, a look at the counter, and perhaps a cancel, which gives back
        everything but the ticket. */
    method TryAdmitRead(t: nat, chance: Chance) returns (g: Option<ReadGuard>)
      requires readMutex == Free
      modifies this
      ensures roles == old(roles)
      ensures g.Some? <==> old(occupied) > 0 && !chance.tryFails && old(count) != 0
      ensures g.Some? ==>
                && g.value == PermitGuard(old(overwriteMode), old(readSeq))
                && View() == old(View()).(
                               occupied := old(occupied) - 1,
                               readMutex := if config.ReadsLock() then HeldBy(t) else Free,
                               readSeq := if DrawsTicket(old(overwriteMode)) then old(readSeq) + 1 else old(readSeq))
      ensures g.None? ==>
                View() == old(View()).(
                            readSeq := if DrawsTicket(old(overwriteMode)) && old(occupied) > 0 && !chance.tryFails
                                       then old(readSeq) + 1 else old(readSeq))
    {
      if occupied <= 0 || chance.tryFails { return None; }
      var guard := AcquireRead(t);
      if count == 0 {
        DestroyReadGuard(guard, true);
        return None;
      }
      return Some(guard);
    }

    /** ReadHead: by ticket, or by a compare-and-swap loop that moves the slot out again after each failure. */
    method ReadHead(g: ReadGuard, lostRaces: nat) returns (message: V)
      requires buffer.Length == config.capacity
      requires if g.reserved.Ticket? then g.reserved.index < config.capacity else head < config.capacity
      modifies this, buffer
      ensures var i, lost := if g.reserved.Ticket? then g.reserved.index else old(head),
                             if g.reserved.Ticket? then 0 else lostRaces;
              && message == Worn(moved, lost, old(buffer[..])[i])
              && View() == old(View()).(
                             buffer := old(buffer[..])[i := Worn(moved, lost + 1, old(buffer[..])[i])],
                             head := if g.reserved.Ticket? then old(head) else Next(config, old(head)))
      ensures roles == old(roles)
    {
      if g.reserved.Ticket? {
        message := buffer[g.reserved.index];
        buffer[g.reserved.index] := moved(message);
        return;
      }
      var h := head;
      message := buffer[h];
      buffer[h] := moved(message);
      for lost := 0 to lostRaces
        invariant h == head < buffer.Length && message == Worn(moved, lost, old(buffer[..])[h])
        invariant View() == old(View()).(buffer := old(buffer[..])[h := Worn(moved, lost + 1, old(buffer[..])[h])])
        invariant roles == old(roles)
      {
        h := head;
        message := buffer[h];
        buffer[h] := moved(message);
      }
      head := (h + 1) % config.capacity;
    }

    /** PopMessage: the message, the counter, the guard's destructor. */
    method PopMessage(t: nat, g: ReadGuard, chance: Chance, ghost pre: Shared<V>) returns (message: V)
      requires AtRest(config, pre) && pre.count > 0
      requires g == PermitGuard(pre.overwriteMode, pre.readSeq)
      requires View() == pre.(occupied := pre.occupied - 1, readMutex := if config.ReadsLock() then HeldBy(t) else Free,
                              readSeq := if DrawsTicket(pre.overwriteMode) then pre.readSeq + 1 else pre.readSeq)
      modifies this, buffer
      ensures Valid() && Queue() == Contents(config, pre)[1..] && roles == old(roles)
      ensures message == Gets(config, moved, Contents(config, pre)[0], chance.lostRaces)
    {
      hide AtRest, Contents, Next, Worn;
      RestingRing(config, pre);
      ghost var first := pre.buffer[First(config, pre) % config.capacity];
      ghost var left := Worn(moved, (if config.Tickets() then 0 else chance.lostRaces) + 1, first);
      TakenDropsFirst(config, pre, left);
      message := ReadHead(g, chance.lostRaces);
      count := count - 1;
      DestroyReadGuard(g, false);
      NoWear(moved, first);
      assert View() == Taken(config, pre, left);
    }

    /** A read gets the first message as it was sent if and only if the failed compare-and-swaps of its own leave
        the message as it is; the message leaves the queue in any case. */
    method Read(t: nat, chance: Chance) returns (o: Outcome<V>)
      requires Valid()
      modifies this, buffer
      ensures o == ReadResult(config, RoleOf(roles, t), Throws(config.policy, RoleOf(old(roles), t), Consumer),
                              AsRead(config, moved, old(Queue()), chance.lostRaces))
      ensures Valid() && Queue() == AfterRead(old(Queue()), o)
      ensures RoleOf(roles, t) == Account(config.policy, RoleOf(old(roles), t), Consumer)
      ensures forall u | u != t :: RoleOf(roles, u) == RoleOf(old(roles), u)
    {
      hide Worn, Contents;
      var threw, accounted := AccountThreads(config.policy, roles, t, Consumer);
      roles := accounted;
      if threw { return Ended(ThrewRole); }
      if RoleOf(roles, t) == Both && count == 0 && !config.policy.NoException? { return Ended(ThrewDeadlock); }
      if occupied <= 0 { return Blocks; }
      ghost var pre := View();
      var g := AcquireRead(t);
      var message := PopMessage(t, g, chance, pre);
      o := Ended(Got(message));
    }

    method TryRead(t: nat, chance: Chance) returns (o: Outcome<V>)
      requires Valid()
      modifies this, buffer
      ensures o == TryReadResult(RoleOf(roles, t), Throws(config.policy, RoleOf(old(roles), t), Consumer),
                                 AsRead(config, moved, old(Queue()), chance.lostRaces), chance.tryFails)
      ensures Valid() && Queue() == AfterRead(old(Queue()), o)
      ensures RoleOf(roles, t) == Account(config.policy, RoleOf(old(roles), t), Consumer)
      ensures forall u | u != t :: RoleOf(roles, u) == RoleOf(old(roles), u)
    {
      hide Worn, Contents;
      var threw, accounted := AccountThreads(config.policy, roles, t, Consumer);
      roles := accounted;
      if threw { return Ended(ThrewRole); }
      if RoleOf(roles, t) == Both && count == 0 { return Ended(Nothing); }
      ghost var pre := View();
      var g := TryAdmitRead(t, chance);
      if g.None? { return Ended(Nothing); }
      var message := PopMessage(t, g.value, chance, pre);
      o := Ended(Got(message));
    }
  }

  lemma NoWear<V>(moved: V -> V, v: V)
    ensures Worn(moved, 0, v) == v
  {
  }

  /** For a type whose moved-from value stays as it is when moved from again, as std::string's empty string, a read
      gets the message as it was sent exactly when it lost no race or moving does not change that message. */
  lemma {:induction false} RetryLosesMessage<V(!new)>(moved: V -> V, lostRaces: nat, v: V)
    requires forall x :: moved(moved(x)) == moved(x)
    ensures Worn(moved, lostRaces, v) == v <==> lostRaces == 0 || moved(v) == v
    ensures lostRaces > 0 ==> Worn(moved, lostRaces, v) == moved(v)
  {
    if lostRaces > 0 { RetryLosesMessage(moved, lostRaces - 1, v); }
  }

  /** A thread that only sends and one that only reads. */
  predicate OneWay(roles: map<nat, Role>, t: nat, u: nat) {
    t != u && RoleOf(roles, t) in {NoInfo, Producer} && RoleOf(roles, u) in {NoInfo, Consumer}
  }

  /** chances(i) is what the atomics do in send i: no drop loop may lose all its attempts. */
  method SendAll<V>(queue: CircularQueue<V>, t: nat, ghost u: nat, vs: seq<V>, chances: nat -> Chance)
    requires queue.Valid() && queue.config.overflow.DropOldest? && OneWay(queue.roles, t, u)
    requires forall i | 0 <= i < |vs| :: chances(i).lostRaces < DROP_ATTEMPTS
    modifies queue, queue.buffer
    ensures queue.Valid() && OneWay(queue.roles, t, u) && queue.Queue() == LastOf(queue.config, old(queue.Queue()) + vs)
  {
    hide AtRest, Contents;
    ghost var q := queue.Queue();
    for i := 0 to |vs|
      invariant queue.Valid() && OneWay(queue.roles, t, u)
      invariant queue.Queue() == AllSent(queue.config, q, vs[..i])
    {
      assert vs[..i + 1][..i] == vs[..i];
      var _ := queue.Send(t, vs[i], chances(i));
    }
    assert vs[..|vs|] == vs;
    WithinRing(queue.config, old(queue.View()));
    SendsLeaveTheLast(queue.config, q, vs);
  }

  /** A send that drops may set the mode of the ring. */
  lemma SameRest<V>(c: Config, sh: Shared<V>, sh': Shared<V>)
    requires AtRest(c, sh) && c.overflow.DropOldest?
             && sh' == sh.(overwriteMode := sh.overwriteMode || c.category.MPMC?)
    ensures AtRest(c, sh') && Contents(c, sh') == Contents(c, sh)
  {
  }

  lemma RestingMutex<V>(c: Config, sh: Shared<V>)
    requires AtRest(c, sh)
    ensures sh.sendMutex == Free && sh.free >= 0 && |sh.buffer| == c.capacity && 0 <= sh.count <= c.capacity
  {
  }

  /** Reading until the queue is empty gets its messages in order, under either policy, each as its own read
      leaves it. */
  method Drain<V>(queue: CircularQueue<V>, u: nat, chances: nat -> Chance) returns (got: seq<V>)
    requires queue.Valid() && RoleOf(queue.roles, u) in {NoInfo, Consumer}
    modifies queue, queue.buffer
    ensures |got| == |old(queue.Queue())| && queue.Valid() && queue.Queue() == []
    ensures forall k | 0 <= k < |got| :: got[k] == Gets(queue.config, queue.moved, old(queue.Queue())[k],
                                                        chances(k).lostRaces)
  {
    hide AtRest, Contents, Worn;
    got := [];
    WithinRing(queue.config, queue.View());
    while queue.count > 0
      invariant queue.Valid() && RoleOf(queue.roles, u) in {NoInfo, Consumer} && |queue.Queue()| == queue.count
      invariant |got| <= |old(queue.Queue())| && queue.Queue() == old(queue.Queue())[|got|..]
      invariant forall k | 0 <= k < |got| :: got[k] == Gets(queue.config, queue.moved, old(queue.Queue())[k],
                                                            chances(k).lostRaces)
      decreases queue.count
    {
      var o := queue.Read(u, chances(|got|));
      got := got + [o.result.value];
      WithinRing(queue.config, queue.View());
    }
  }

  /** An overwriting queue is filled by sends alone and then read empty: the reads get the last `capacity`
      messages of all, in the order they were sent. */
  method SendAllThenDrain<V>(queue: CircularQueue<V>, t: nat, u: nat, vs: seq<V>, chances: nat -> Chance,
                             races: nat -> Chance)
    returns (got: seq<V>)
    requires queue.Valid() && queue.config.overflow.DropOldest? && OneWay(queue.roles, t, u)
    requires forall i | 0 <= i < |vs| :: chances(i).lostRaces < DROP_ATTEMPTS
    modifies queue, queue.buffer
    ensures var kept := LastOf(queue.config, old(queue.Queue()) + vs);
            |got| == |kept| && forall k | 0 <= k < |got| :: got[k] == Gets(queue.config, queue.moved, kept[k],
                                                                           races(k).lostRaces)
    ensures queue.Valid() && queue.Queue() == []
  {
    hide AtRest, Contents, LastOf, Worn;
    SendAll(queue, t, u, vs, chances);
    got := Drain(queue, u, races);
  }
}
