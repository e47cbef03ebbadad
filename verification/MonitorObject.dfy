/** The queue object of lib/deque_bounded_message_queue.hpp, call by call. */
module MonitorObject {
  import opened Roles
  import opened Monitor
  import opened MonitorInvariant
  import opened MonitorSolo
  import opened MonitorTheorems
  import opened Options

  // A call runs alone while the other threads are paused wherever a run of the step system has left them: asleep,
  // on their way to the mutex, or holding it. Valid says that the object's past is such a run, so each contract
  // speaks of every state that any interleaving can reach. throws says that the message throws when it is stored
  // or moved out.

  /** How a call ends: it returns or throws, or it is left waiting for the mutex or for a notification. */
  datatype Outcome<V> = Ended(result: Result<V>) | Waits

  class DequeQueue<V> {
    const config: Config
    var free: int
    var used: int
    var buffer: seq<V>
    var closed: bool
    var mutex: Mutex
    var roles: map<nat, Role>
    ghost var pc: map<nat, Pc<V>>
    ghost var story: Story<V>

    ghost function View(): State<V>
      reads this
    {
      State(config, Shared(free, used, buffer, closed, mutex), roles, pc)
    }

    ghost predicate Valid()
      reads this
    {
      story.Runs() && story.Last() == View()
    }

    constructor (config: Config, ghost threads: set<nat>)
      requires config.capacity >= 1
      ensures Valid() && Initial(View()) && this.config == config && pc.Keys == threads
    {
      this.config := config;
      free, used, buffer, closed, mutex := config.capacity, 0, [], false, Free;
      roles := map[];
      pc := map t | t in threads :: Done(NoCall);
      new;
      story := Begins(View());
    }

    /** The object's past goes on as h. */
    ghost method Follow(h: Story<V>)
      requires h.Runs() && h.Last() == View().(pc := h.Last().pc)
      modifies this`pc, this`story
      ensures Valid() && story == h && pc == h.Last().pc
    {
      pc := h.Last().pc;
      story := h;
    }

    /** What Valid says about the counters. */
    lemma Balance()
      requires Valid()
      ensures free >= 0 && used >= 0 && |buffer| <= config.capacity
      ensures mutex == Free ==> free + used == config.capacity && used == |buffer|
      ensures forall t | t in pc && pc[t].Pop? :: buffer != []
    {
      var r, ls := story.states, story.labels;
      RunInv(r, ls, |ls|);
      ReservationsBalance(r, ls, |ls|);
      forall t | t in pc && pc[t].Pop? ensures buffer != [] {
        HolderBooks(View(), t);
      }
      hide IsRun;
    }

    /** AccountThreads as every send and every read does it. */
    method Account(t: nat, ghost op: Op<V>, role: Role) returns (threw: bool)
      requires Valid() && t in pc && pc[t].Done? && !op.Close? && role == Direction(op)
      modifies this`roles, this`pc, this`story
      ensures Valid() && OthersSame(old(pc), pc, t)
      ensures threw == Throws(config.policy, RoleOf(old(roles), t), role)
      ensures roles == old(roles)[t := Roles.Account(config.policy, RoleOf(old(roles), t), role)]
      ensures pc[t] == if threw then Done(ThrewRole)
                       else match op
                            case Send(v) => SendProbe(v, true)
                            case TrySend(v) => SendProbe(v, false)
                            case Read => ReadProbe(true)
                            case _ => ReadProbe(false)
    {
      hide IsRun;
      ghost var h := Calls(story, t, op);
      threw, roles := AccountThreads(config.policy, roles, t, role);
      Follow(h);
    }

    /** CheckSendDeadlockPossibility and HandleDeadlock: the answer ends the call, or there is none. */
    method CheckSend(t: nat, ghost v: V, blocking: bool) returns (o: Option<Outcome<V>>)
      requires Valid() && t in pc && pc[t] == SendProbe(v, blocking)
      modifies this`pc, this`story
      ensures Valid() && OthersSame(old(pc), pc, t)
      ensures o == if !(config.category in {SPSC, MPSC} && RoleOf(roles, t) == Both) then None
                   else if mutex.HeldBy? then Some(Waits)
                   else if free != 0 then None
                   else if !blocking then Some(Ended(Refused))
                   else if !config.policy.NoException? then Some(Ended(ThrewDeadlock))
                   else None
      ensures o.None? ==> pc[t] == if blocking then SendLock(v) else TrySendLock(v)
      ensures o.Some? ==> if o.value.Ended? then pc[t] == Done(o.value.result) else Sending(pc[t]) && !pc[t].SendSleep?
    {
      hide IsRun, Initial, Enabled;
      var asks := SingleConsumer(config.category) && RoleOf(roles, t) == Both;
      if asks && mutex.HeldBy? { return Some(Waits); }
      ghost var h := ProbesSend(story, t, v, blocking);
      Follow(h);
      if asks && free == 0 {
        if !blocking { return Some(Ended(Refused)); }
        if !config.policy.NoException? { return Some(Ended(ThrewDeadlock)); }
      }
      o := None;
    }

    /** CheckReadDeadlockPossibility and HandleDeadlock. */
    method CheckRead(t: nat, blocking: bool) returns (o: Option<Outcome<V>>)
      requires Valid() && t in pc && pc[t] == ReadProbe(blocking)
      modifies this`pc, this`story
      ensures Valid() && OthersSame(old(pc), pc, t)
      ensures o == if !(config.category in {SPSC, SPMC} && RoleOf(roles, t) == Both) then None
                   else if mutex.HeldBy? then Some(Waits)
                   else if used != 0 then None
                   else if !blocking then Some(Ended(Nothing))
                   else if !config.policy.NoException? then Some(Ended(ThrewDeadlock))
                   else None
      ensures o.None? ==> pc[t] == if blocking then ReadLock else TryReadLock
      ensures o.Some? ==> if o.value.Ended? then pc[t] == Done(o.value.result) else pc[t] == ReadProbe(blocking)
    {
      hide IsRun, Initial, Enabled;
      var asks := SingleProducer(config.category) && RoleOf(roles, t) == Both;
      if asks && mutex.HeldBy? { return Some(Waits); }
      ghost var h := ProbesRead(story, t, blocking);
      Follow(h);
      if asks && used == 0 {
        if !blocking { return Some(Ended(Nothing)); }
        if !config.policy.NoException? { return Some(Ended(ThrewDeadlock)); }
      }
      o := None;
    }

    /** SyncAndOverflowPrework with the mutex free. */
    method SyncAndOverflowPrework(t: nat, ghost v: V) returns (o: Option<Outcome<V>>)
      requires Valid() && t in pc && pc[t] == SendLock(v) && mutex == Free
      modifies this`free, this`mutex, this`pc, this`story
      ensures Valid() && OthersSame(old(pc), pc, t)
      ensures o == if closed then Some(Ended(ThrewClosed))
                   else if |buffer| == config.capacity then Some(Waits)
                   else None
      ensures o.None? ==> pc[t] == Store(v)
      ensures o.Some? ==> mutex == Free && pc[t] == if closed then Done(ThrewClosed) else SendSleep(v)
    {
      hide IsRun, Initial, Enabled;
      Balance();
      ghost var h := Overflows(story, t, v);
      mutex := HeldBy(t);
      if closed {
        mutex := Free;
        o := Some(Ended(ThrewClosed));
      } else if free <= 0 {
        mutex := Free;
        o := Some(Waits);
      } else {
        free := free - 1;
        o := None;
      }
      Follow(h);
    }

    /** TrySyncAndOverflowPrework with the mutex free. */
    method TrySyncAndOverflowPrework(t: nat, ghost v: V) returns (ok: bool)
      requires Valid() && t in pc && pc[t] == TrySendLock(v) && mutex == Free
      modifies this`free, this`mutex, this`pc, this`story
      ensures Valid() && OthersSame(old(pc), pc, t) && ok == (!closed && |buffer| != config.capacity)
      ensures pc[t] == if ok then Store(v) else Done(Refused)
      ensures !ok ==> mutex == Free
    {
      hide IsRun, Initial, Enabled;
      Balance();
      ghost var h := TryOverflows(story, t, v);
      mutex := HeldBy(t);
      ok := !closed && free != 0;
      if ok { free := free - 1; } else { mutex := Free; }
      Follow(h);
    }

    /** SyncAndUnderflowPrework with the mutex free. */
    method SyncAndUnderflowPrework(t: nat) returns (o: Option<Outcome<V>>)
      requires Valid() && t in pc && pc[t] == ReadLock && mutex == Free
      modifies this`used, this`mutex, this`pc, this`story
      ensures Valid() && OthersSame(old(pc), pc, t)
      ensures o == if buffer != [] then None else if closed then Some(Ended(ThrewClosed)) else Some(Waits)
      ensures o.None? ==> pc[t] == Pop
      ensures o.Some? ==> mutex == Free && pc[t] == if closed then Done(ThrewClosed) else ReadSleep
    {
      hide IsRun, Initial, Enabled;
      Balance();
      ghost var h := Underflows(story, t);
      mutex := HeldBy(t);
      if !closed && used <= 0 {
        mutex := Free;
        o := Some(Waits);
      } else if used == 0 {
        mutex := Free;
        o := Some(Ended(ThrewClosed));
      } else {
        used := used - 1;
        o := None;
      }
      Follow(h);
    }

    /** TrySyncAndUnderflowPrework with the mutex free. */
    method TrySyncAndUnderflowPrework(t: nat) returns (ok: bool)
      requires Valid() && t in pc && pc[t] == TryReadLock && mutex == Free
      modifies this`used, this`mutex, this`pc, this`story
      ensures Valid() && OthersSame(old(pc), pc, t) && ok == (buffer != [])
      ensures pc[t] == if ok then Pop else Done(Nothing)
      ensures !ok ==> mutex == Free
    {
      hide IsRun, Initial, Enabled;
      Balance();
      ghost var h := TryUnderflows(story, t);
      mutex := HeldBy(t);
      ok := used != 0;
      if ok { used := used - 1; } else { mutex := Free; }
      Follow(h);
    }

    /** StoreMessage and SendPostwork, under the mutex. */
    method StoreMessage(ghost t: nat, v: V, throws: bool) returns (o: Outcome<V>)
      requires Valid() && t in pc && pc[t] == Store(v)
      modifies this`free, this`used, this`buffer, this`mutex, this`pc, this`story
      ensures Valid() && mutex == Free && o == Ended(if throws then ThrewMessage else Sent)
      ensures buffer == old(buffer) + if throws then [] else [v]
      ensures Finished(old(pc), pc, t, !throws || config.rollbackNotifies, throws, o.result)
    {
      hide IsRun, Initial, Enabled, Finished;
      ghost var h := FinishesStore(story, t, v, throws);
      if throws {
        free := free + 1;
        o := Ended(ThrewMessage);
      } else {
        buffer := buffer + [v];
        used := used + 1;
        o := Ended(Sent);
      }
      mutex := Free;
      Follow(h);
    }

    /** PopMessage and ReadPostwork, under the mutex. */
    method PopMessage(ghost t: nat, throws: bool) returns (o: Outcome<V>)
      requires Valid() && t in pc && pc[t] == Pop
      modifies this`free, this`used, this`buffer, this`mutex, this`pc, this`story
      ensures Valid() && mutex == Free && old(buffer) != []
      ensures o == Ended(if throws then ThrewMessage else Got(old(buffer)[0]))
      ensures buffer == if throws then old(buffer) else old(buffer)[1..]
      ensures Finished(old(pc), pc, t, !throws || config.rollbackNotifies, !throws, o.result)
    {
      hide IsRun, Initial, Enabled, Finished;
      Balance();
      ghost var h := FinishesPop(story, t, throws);
      if throws {
        used := used + 1;
        o := Ended(ThrewMessage);
      } else {
        o := Ended(Got(buffer[0]));
        buffer := buffer[1..];
        free := free + 1;
      }
      mutex := Free;
      Follow(h);
    }

    /** Balance with the mutex free: the two counters say how long the buffer is. */
    lemma Counts()
      requires Valid()
      ensures mutex == Free ==> free == config.capacity - |buffer| >= 0 && used == |buffer|
    {
      hide IsRun;
      Balance();
    }

    /** What a send of each form comes to under the mutex, on a queue that holds q. */
    function SendEnds(q: seq<V>, throws: bool): Outcome<V>
      reads this`closed
    {
      if closed then Ended(ThrewClosed)
      else if |q| == config.capacity then Waits
      else Ended(if throws then ThrewMessage else Sent)
    }

    function TrySendEnds(q: seq<V>, throws: bool): Outcome<V>
      reads this`closed
    {
      Ended(if closed || |q| == config.capacity then Refused else if throws then ThrewMessage else Sent)
    }

    /** What a read of each form comes to under the mutex, on a queue that holds q. */
    function ReadEnds(q: seq<V>, throws: bool): Outcome<V>
      reads this`closed
    {
      if q == [] then if closed then Ended(ThrewClosed) else Waits
      else Ended(if throws then ThrewMessage else Got(q[0]))
    }

    function TryReadEnds(q: seq<V>, throws: bool): Outcome<V> {
      Ended(if q == [] then Nothing else if throws then ThrewMessage else Got(q[0]))
    }

    /** A finished send wakes one reader for its message, and one whose message threw wakes one sender for the slot
        it gives back; a finished read does the opposite. */
    predicate Notifying(o: Outcome<V>) {
      o == Ended(Sent) || (o.Ended? && o.result.Got?) || (o == Ended(ThrewMessage) && config.rollbackNotifies)
    }

    /** The blocking send from its lock_guard on, with the mutex free. */
    method SendUnderMutex(t: nat, v: V, throws: bool) returns (o: Outcome<V>)
      requires Valid() && t in pc && pc[t] == SendLock(v) && mutex == Free
      modifies this`free, this`used, this`buffer, this`mutex, this`pc, this`story
      ensures Valid() && mutex == Free && o == SendEnds(old(buffer), throws)
      ensures buffer == old(buffer) + if o == Ended(Sent) then [v] else []
      ensures Leaves(old(pc), pc, t, Notifying(o), throws, o) && (o.Waits? ==> pc[t] == SendSleep(v))
    {
      hide IsRun, Initial, Enabled, Valid, WokeOne;
      var answer := SyncAndOverflowPrework(t, v);
      if answer.Some? { return answer.value; }
      ghost var before := pc;
      o := StoreMessage(t, v, throws);
      Finishes(old(pc), before, pc, t, !throws || config.rollbackNotifies, throws, o.result);
    }

    /** The blocking send after AccountThreads. */
    method SendAccounted(t: nat, v: V, throws: bool) returns (o: Outcome<V>)
      requires Valid() && t in pc && pc[t] == SendProbe(v, true)
      modifies this`free, this`used, this`buffer, this`mutex, this`pc, this`story
      ensures Valid() && mutex == old(mutex)
      ensures o == if mutex.HeldBy? then Waits
                   else if config.category in {SPSC, MPSC} && RoleOf(roles, t) == Both
                           && |old(buffer)| == config.capacity && !config.policy.NoException?
                   then Ended(ThrewDeadlock)
                   else SendEnds(old(buffer), throws)
      ensures buffer == old(buffer) + if o == Ended(Sent) then [v] else []
      ensures Leaves(old(pc), pc, t, Notifying(o), throws, o)
      ensures o.Waits? && mutex == Free ==> pc[t] == SendSleep(v)
    {
      hide IsRun, Initial, Enabled, Valid, WokeOne, Throws, Roles.Account, SingleConsumer, SingleProducer;
      Counts();
      var answer := CheckSend(t, v, true);
      if answer.Some? { return answer.value; }
      if mutex.HeldBy? { return Waits; }
      ghost var before := pc;
      o := SendUnderMutex(t, v, throws);
      LeavesSince(old(pc), before, pc, t, Notifying(o), throws, o);
    }

    /** Send: with the mutex free it ends as a bounded, closable FIFO queue says; with the mutex held it waits. */
    method Send(t: nat, v: V, throws: bool) returns (o: Outcome<V>)
      requires Valid() && t in pc && pc[t].Done?
      modifies this`free, this`used, this`buffer, this`mutex, this`roles, this`pc, this`story
      ensures Valid() && mutex == old(mutex)
      ensures roles == old(roles)[t := Roles.Account(config.policy, RoleOf(old(roles), t), Producer)]
      ensures o == if Throws(config.policy, RoleOf(old(roles), t), Producer) then Ended(ThrewRole)
                   else if mutex.HeldBy? then Waits
                   else if config.category in {SPSC, MPSC} && RoleOf(roles, t) == Both
                           && |old(buffer)| == config.capacity && !config.policy.NoException?
                   then Ended(ThrewDeadlock)
                   else SendEnds(old(buffer), throws)
      ensures buffer == old(buffer) + if o == Ended(Sent) then [v] else []
      ensures Leaves(old(pc), pc, t, Notifying(o), throws, o)
      ensures o.Waits? && mutex == Free ==> pc[t] == SendSleep(v)
    {
      hide IsRun, Initial, Enabled, Valid, WokeOne, Throws, Roles.Account, SingleConsumer, SingleProducer;
      var threw := Account(t, Op.Send(v), Producer);
      if threw { return Ended(ThrewRole); }
      ghost var before := pc;
      o := SendAccounted(t, v, throws);
      LeavesSince(old(pc), before, pc, t, Notifying(o), throws, o);
    }

    /** The try form from its lock_guard on, with the mutex free. */
    method TrySendUnderMutex(t: nat, v: V, throws: bool) returns (o: Outcome<V>)
      requires Valid() && t in pc && pc[t] == TrySendLock(v) && mutex == Free
      modifies this`free, this`used, this`buffer, this`mutex, this`pc, this`story
      ensures Valid() && mutex == Free && o == TrySendEnds(old(buffer), throws)
      ensures buffer == old(buffer) + if o == Ended(Sent) then [v] else []
      ensures Leaves(old(pc), pc, t, Notifying(o), throws, o)
    {
      hide IsRun, Initial, Enabled, Valid, WokeOne;
      var ok := TrySyncAndOverflowPrework(t, v);
      if !ok { return Ended(Refused); }
      ghost var before := pc;
      o := StoreMessage(t, v, throws);
      Finishes(old(pc), before, pc, t, !throws || config.rollbackNotifies, throws, o.result);
    }

    /** The try form after AccountThreads. */
    method TrySendAccounted(t: nat, v: V, throws: bool) returns (o: Outcome<V>)
      requires Valid() && t in pc && pc[t] == SendProbe(v, false)
      modifies this`free, this`used, this`buffer, this`mutex, this`pc, this`story
      ensures Valid() && mutex == old(mutex)
      ensures o == if mutex.HeldBy? then Waits
                   else TrySendEnds(old(buffer), throws)
      ensures buffer == old(buffer) + if o == Ended(Sent) then [v] else []
      ensures Leaves(old(pc), pc, t, Notifying(o), throws, o)
    {
      hide IsRun, Initial, Enabled, Valid, WokeOne, Throws, Roles.Account, SingleConsumer, SingleProducer;
      Counts();
      var answer := CheckSend(t, v, false);
      if answer.Some? { return answer.value; }
      if mutex.HeldBy? { return Waits; }
      ghost var before := pc;
      o := TrySendUnderMutex(t, v, throws);
      LeavesSince(old(pc), before, pc, t, Notifying(o), throws, o);
    }

    /** TrySend: as Send, but a full or a closed queue refuses, and so does the probe. */
    method TrySend(t: nat, v: V, throws: bool) returns (o: Outcome<V>)
      requires Valid() && t in pc && pc[t].Done?
      modifies this`free, this`used, this`buffer, this`mutex, this`roles, this`pc, this`story
      ensures Valid() && mutex == old(mutex)
      ensures roles == old(roles)[t := Roles.Account(config.policy, RoleOf(old(roles), t), Producer)]
      ensures o == if Throws(config.policy, RoleOf(old(roles), t), Producer) then Ended(ThrewRole)
                   else if mutex.HeldBy? then Waits
                   else TrySendEnds(old(buffer), throws)
      ensures buffer == old(buffer) + if o == Ended(Sent) then [v] else []
      ensures Leaves(old(pc), pc, t, Notifying(o), throws, o)
    {
      hide IsRun, Initial, Enabled, Valid, WokeOne, Throws, Roles.Account, SingleConsumer, SingleProducer;
      var threw := Account(t, Op.TrySend(v), Producer);
      if threw { return Ended(ThrewRole); }
      ghost var before := pc;
      o := TrySendAccounted(t, v, throws);
      LeavesSince(old(pc), before, pc, t, Notifying(o), throws, o);
    }

    /** The blocking read from its lock_guard on, with the mutex free. */
    method ReadUnderMutex(t: nat, throws: bool) returns (o: Outcome<V>)
      requires Valid() && t in pc && pc[t] == ReadLock && mutex == Free
      modifies this`free, this`used, this`buffer, this`mutex, this`pc, this`story
      ensures Valid() && mutex == Free && o == ReadEnds(old(buffer), throws)
      ensures buffer == if o.Ended? && o.result.Got? then old(buffer)[1..] else old(buffer)
      ensures Leaves(old(pc), pc, t, Notifying(o), !throws, o) && (o.Waits? ==> pc[t] == ReadSleep)
    {
      hide IsRun, Initial, Enabled, Valid, WokeOne;
      var answer := SyncAndUnderflowPrework(t);
      if answer.Some? { return answer.value; }
      ghost var before := pc;
      o := PopMessage(t, throws);
      Finishes(old(pc), before, pc, t, !throws || config.rollbackNotifies, !throws, o.result);
    }

    /** The blocking read after AccountThreads. */
    method ReadAccounted(t: nat, throws: bool) returns (o: Outcome<V>)
      requires Valid() && t in pc && pc[t] == ReadProbe(true)
      modifies this`free, this`used, this`buffer, this`mutex, this`pc, this`story
      ensures Valid() && mutex == old(mutex)
      ensures o == if mutex.HeldBy? then Waits
                   else if config.category in {SPSC, SPMC} && RoleOf(roles, t) == Both
                           && old(buffer) == [] && !config.policy.NoException?
                   then Ended(ThrewDeadlock)
                   else ReadEnds(old(buffer), throws)
      ensures buffer == if o.Ended? && o.result.Got? then old(buffer)[1..] else old(buffer)
      ensures Leaves(old(pc), pc, t, Notifying(o), !throws, o)
      ensures o.Waits? && mutex == Free ==> pc[t] == ReadSleep
    {
      hide IsRun, Initial, Enabled, Valid, WokeOne, Throws, Roles.Account, SingleConsumer, SingleProducer;
      Counts();
      var answer := CheckRead(t, true);
      if answer.Some? { return answer.value; }
      if mutex.HeldBy? { return Waits; }
      ghost var before := pc;
      o := ReadUnderMutex(t, throws);
      LeavesSince(old(pc), before, pc, t, Notifying(o), !throws, o);
    }

    /** Read: with the mutex free it takes the first message, if there is one, even from a closed queue. */
    method Read(t: nat, throws: bool) returns (o: Outcome<V>)
      requires Valid() && t in pc && pc[t].Done?
      modifies this`free, this`used, this`buffer, this`mutex, this`roles, this`pc, this`story
      ensures Valid() && mutex == old(mutex)
      ensures roles == old(roles)[t := Roles.Account(config.policy, RoleOf(old(roles), t), Consumer)]
      ensures o == if Throws(config.policy, RoleOf(old(roles), t), Consumer) then Ended(ThrewRole)
                   else if mutex.HeldBy? then Waits
                   else if config.category in {SPSC, SPMC} && RoleOf(roles, t) == Both
                           && old(buffer) == [] && !config.policy.NoException?
                   then Ended(ThrewDeadlock)
                   else ReadEnds(old(buffer), throws)
      ensures buffer == if o.Ended? && o.result.Got? then old(buffer)[1..] else old(buffer)
      ensures Leaves(old(pc), pc, t, Notifying(o), !throws, o)
      ensures o.Waits? && mutex == Free ==> pc[t] == ReadSleep
    {
      hide IsRun, Initial, Enabled, Valid, WokeOne, Throws, Roles.Account, SingleConsumer, SingleProducer;
      var threw := Account(t, Op.Read, Consumer);
      if threw { return Ended(ThrewRole); }
      ghost var before := pc;
      o := ReadAccounted(t, throws);
      LeavesSince(old(pc), before, pc, t, Notifying(o), !throws, o);
    }

    /** The try form from its lock_guard on, with the mutex free. */
    method TryReadUnderMutex(t: nat, throws: bool) returns (o: Outcome<V>)
      requires Valid() && t in pc && pc[t] == TryReadLock && mutex == Free
      modifies this`free, this`used, this`buffer, this`mutex, this`pc, this`story
      ensures Valid() && mutex == Free && o == TryReadEnds(old(buffer), throws)
      ensures buffer == if o.result.Got? then old(buffer)[1..] else old(buffer)
      ensures Leaves(old(pc), pc, t, Notifying(o), !throws, o)
    {
      hide IsRun, Initial, Enabled, Valid, WokeOne;
      var ok := TrySyncAndUnderflowPrework(t);
      if !ok { return Ended(Nothing); }
      ghost var before := pc;
      o := PopMessage(t, throws);
      Finishes(old(pc), before, pc, t, !throws || config.rollbackNotifies, !throws, o.result);
    }

    /** The try form after AccountThreads. */
    method TryReadAccounted(t: nat, throws: bool) returns (o: Outcome<V>)
      requires Valid() && t in pc && pc[t] == ReadProbe(false)
      modifies this`free, this`used, this`buffer, this`mutex, this`pc, this`story
      ensures Valid() && mutex == old(mutex)
      ensures o == if mutex.HeldBy? then Waits
                   else TryReadEnds(old(buffer), throws)
      ensures buffer == if o.Ended? && o.result.Got? then old(buffer)[1..] else old(buffer)
      ensures Leaves(old(pc), pc, t, Notifying(o), !throws, o)
    {
      hide IsRun, Initial, Enabled, Valid, WokeOne, Throws, Roles.Account, SingleConsumer, SingleProducer;
      Counts();
      var answer := CheckRead(t, false);
      if answer.Some? { return answer.value; }
      if mutex.HeldBy? { return Waits; }
      ghost var before := pc;
      o := TryReadUnderMutex(t, throws);
      LeavesSince(old(pc), before, pc, t, Notifying(o), !throws, o);
    }

    /** TryRead: as Read, but it finds nothing where Read would wait or throw. */
    method TryRead(t: nat, throws: bool) returns (o: Outcome<V>)
      requires Valid() && t in pc && pc[t].Done?
      modifies this`free, this`used, this`buffer, this`mutex, this`roles, this`pc, this`story
      ensures Valid() && mutex == old(mutex)
      ensures roles == old(roles)[t := Roles.Account(config.policy, RoleOf(old(roles), t), Consumer)]
      ensures o == if Throws(config.policy, RoleOf(old(roles), t), Consumer) then Ended(ThrewRole)
                   else if mutex.HeldBy? then Waits
                   else TryReadEnds(old(buffer), throws)
      ensures buffer == if o.Ended? && o.result.Got? then old(buffer)[1..] else old(buffer)
      ensures Leaves(old(pc), pc, t, Notifying(o), !throws, o)
    {
      hide IsRun, Initial, Enabled, Valid, WokeOne, Throws, Roles.Account, SingleConsumer, SingleProducer;
      var threw := Account(t, Op.TryRead, Consumer);
      if threw { return Ended(ThrewRole); }
      ghost var before := pc;
      o := TryReadAccounted(t, throws);
      LeavesSince(old(pc), before, pc, t, Notifying(o), !throws, o);
    }

    /** Close: the first one to find the mutex free sets the flag and leaves nobody asleep; the messages stay. */
    method Close(t: nat) returns (o: Outcome<V>)
      requires Valid() && t in pc && pc[t].Done?
      modifies this`closed, this`mutex, this`pc, this`story
      ensures Valid() && mutex == old(mutex)
      ensures o == if mutex.HeldBy? then Waits else Ended(Closed)
      ensures o.Waits? ==> closed == old(closed) && pc == old(pc)[t := CloseLock]
      ensures o.Ended? ==> closed && pc == (if old(closed) then old(pc) else Awake(old(pc)))[t := Done(Closed)]
    {
      hide IsRun, Initial, Enabled;
      ghost var h := Calls(story, t, Op.Close);
      Follow(h);
      if mutex.HeldBy? { return Waits; }
      h := Closes(story, t);
      CloseAgain(old(pc), t);
      mutex := HeldBy(t);
      closed := true;
      mutex := Free;
      Follow(h);
      o := Ended(Result.Closed);
    }
  }

  /** The call of t has ended as o, or t waits; besides that at most one sleeper was woken. */
  ghost predicate Leaves<V>(pc: map<nat, Pc<V>>, pc': map<nat, Pc<V>>, t: nat, notifies: bool, senders: bool,
                            o: Outcome<V>) {
    && t in pc' && (o.Ended? ==> pc'[t] == Done(o.result))
    && if notifies && o.Ended? then WokeOne(pc, pc', t, senders, o.result) else OthersSame(pc, pc', t)
  }

  lemma LeavesSince<V>(was: map<nat, Pc<V>>, before: map<nat, Pc<V>>, pc': map<nat, Pc<V>>, t: nat, notifies: bool,
                       senders: bool, o: Outcome<V>)
    requires t in was && OthersSame(was, before, t) && Leaves(before, pc', t, notifies, senders, o)
    requires !Asleep(was[t], senders) && !Asleep(before[t], senders)
    ensures Leaves(was, pc', t, notifies, senders, o)
  {
    hide WokeOne;
    if notifies && o.Ended? { WokeSince(was, before, pc', t, senders, o.result); }
  }

  /** A call that only moved its own thread before it finished. */
  lemma Finishes<V>(was: map<nat, Pc<V>>, before: map<nat, Pc<V>>, pc': map<nat, Pc<V>>, t: nat, notifies: bool,
                    senders: bool, result: Result<V>)
    requires t in was && OthersSame(was, before, t) && Finished(before, pc', t, notifies, senders, result)
    requires !Asleep(was[t], senders) && !Asleep(before[t], senders)
    ensures Leaves(was, pc', t, notifies, senders, Ended(result))
  {
    if notifies { WokeSince(was, before, pc', t, senders, result); }
  }

  lemma CloseAgain<V>(pc: map<nat, Pc<V>>, t: nat)
    ensures pc[t := CloseLock][t := Done(Closed)] == pc[t := Done(Closed)]
    ensures Awake(pc[t := CloseLock])[t := Done(Closed)] == Awake(pc)[t := Done(Closed)]
  {
  }
}
