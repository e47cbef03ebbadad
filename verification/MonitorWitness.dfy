/** Why a throwing store must notify. */
module MonitorWitness {
  import opened Roles
  import opened Monitor
  import opened MonitorInvariant
  import opened MonitorProgress
  import opened MonitorSolo
  import Tallies

  // Without it, as in lib/min-heap_queue.hpp, a run can leave a sender asleep beside a free slot while the reader
  // sleeps too, and no thread can ever step again. The tests that decide who sleeps are those of that queue:
  // MonitorTheorems.SizeDecides shows that a test of the counters is a test of the size.

  /** h goes on to h', with these fields and threads. */
  ghost predicate Reaches<V>(h: Story<V>, h': Story<V>, sh: Shared<V>, pc: map<nat, Pc<V>>)
    requires h.Runs()
  {
    && h'.Runs() && h'.states[0] == h.states[0] && h'.Last().config == h.Last().config
    && h'.Last().sh == sh && h'.Last().pc == pc
  }

  /** The scene is an open queue of capacity one whose throwing stores stay silent. */
  ghost predicate Quiet<V>(h: Story<V>, t: nat) {
    && h.Runs() && t in h.Last().pc && h.Last().pc[t].Done? && h.Last().sh.mutex == Free && !h.Last().sh.closed
    && h.Last().config == Config(1, MPMC, NoException, false)
  }

  lemma SendCompletes<V>(h: Story<V>, t: nat, v: V) returns (h': Story<V>)
    requires Quiet(h, t) && h.Last().sh.free > 0 && !SomeoneSleeps(h.Last(), false)
    ensures Reaches(h, h', h.Last().sh.(free := h.Last().sh.free - 1, used := h.Last().sh.used + 1,
                                        buffer := h.Last().sh.buffer + [v]), h.Last().pc[t := Done(Sent)])
  {
    hide IsRun, Account, Enabled, Threads, Memory, Target, SendTarget, ReadTarget;
    var pc := h.Last().pc;
    h' := SendGetsIn(h, t, v);
    h' := ReservesSlot(h', t, v, false);
    Tallies.Again(pc, t, SendWait(v, false), Store(v));
    h' := Stores(h', t, v);
    Tallies.Again(pc, t, Store(v), NotifySent);
    h' := Notifies(h', t, false);
    Tallies.Again(pc, t, NotifySent, Done(Sent));
  }

  /** A send in a category without a probe, up to its wait. */
  lemma SendGetsIn<V>(h: Story<V>, t: nat, v: V) returns (h': Story<V>)
    requires Quiet(h, t)
    ensures Reaches(h, h', h.Last().sh.(mutex := HeldBy(t)), h.Last().pc[t := SendWait(v, false)])
  {
    hide IsRun, Account, Enabled, Threads, Memory, Target, SendTarget, ReadTarget;
    var pc := h.Last().pc;
    h' := Calls(h, t, Send(v));
    h' := ProbesSend(h', t, v, true);
    Tallies.Again(pc, t, SendProbe(v, true), SendLock(v));
    h' := GetsMutex(h', t);
    Tallies.Again(pc, t, SendLock(v), SendEnter(v));
    h' := TestsSend(h', t, v);
    Tallies.Again(pc, t, SendEnter(v), SendWait(v, false));
  }

  lemma SendBlocks<V>(h: Story<V>, t: nat, v: V) returns (h': Story<V>)
    requires Quiet(h, t) && h.Last().sh.free == 0
    ensures Reaches(h, h', h.Last().sh, h.Last().pc[t := SendSleep(v)])
  {
    hide IsRun, Account, Enabled, Threads, Memory, Target, SendTarget, ReadTarget;
    h' := SendGetsIn(h, t, v);
    h' := GoesToSleepSending(h', t, v, false);
    Tallies.Again(h.Last().pc, t, SendWait(v, false), SendSleep(v));
  }

  lemma ReadGetsIn<V>(h: Story<V>, t: nat) returns (h': Story<V>)
    requires Quiet(h, t)
    ensures Reaches(h, h', h.Last().sh.(mutex := HeldBy(t)), h.Last().pc[t := ReadWait(false)])
  {
    hide IsRun, Account, Enabled, Threads, Memory, Target, SendTarget, ReadTarget;
    var pc := h.Last().pc;
    h' := Calls(h, t, Read);
    h' := ProbesRead(h', t, true);
    Tallies.Again(pc, t, ReadProbe(true), ReadLock);
    h' := GetsMutex(h', t);
    Tallies.Again(pc, t, ReadLock, ReadWait(false));
  }

  lemma ReadBlocks<V>(h: Story<V>, t: nat) returns (h': Story<V>)
    requires Quiet(h, t) && h.Last().sh.used == 0
    ensures Reaches(h, h', h.Last().sh, h.Last().pc[t := ReadSleep])
  {
    hide IsRun, Account, Enabled, Threads, Memory, Target, SendTarget, ReadTarget;
    h' := ReadGetsIn(h, t);
    h' := GoesToSleepReading(h', t, false);
    Tallies.Again(h.Last().pc, t, ReadWait(false), ReadSleep);
  }

  lemma ReadPopsOne<V>(h: Story<V>, t: nat, v: V) returns (h': Story<V>)
    requires Quiet(h, t) && h.Last().sh.used == 1 && h.Last().sh.buffer == [v]
    ensures Reaches(h, h', h.Last().sh.(free := h.Last().sh.free + 1, used := 0, buffer := []),
                    h.Last().pc[t := NotifyRead(v)])
  {
    hide IsRun, Account, Enabled, Threads, Memory, Target, SendTarget, ReadTarget;
    h' := ReadGetsIn(h, t);
    h' := ReservesMessage(h', t, false);
    Tallies.Again(h.Last().pc, t, ReadWait(false), Pop);
    h' := Pops(h', t);
    Tallies.Again(h.Last().pc, t, Pop, NotifyRead(v));
  }

  /** The reader's notify_one wakes sender w. */
  lemma ReadHandsOver<V>(h: Story<V>, t: nat, v: V, w: nat, x: V) returns (h': Story<V>)
    requires h.Runs() && t in h.Last().pc && w in h.Last().pc && t != w
    requires h.Last().pc[t] == NotifyRead(v) && h.Last().pc[w] == SendSleep(x)
    ensures Reaches(h, h', h.Last().sh, h.Last().pc[t := Done(Got(v))][w := SendWoken(x)])
  {
    hide IsRun, Threads;
    h' := Advance(h, NotifyOne(t, w));
    NotifyThreads(h.Last(), NotifyOne(t, w));
  }

  lemma ReadWakesSender<V>(h: Story<V>, t: nat, v: V, w: nat, x: V) returns (h': Story<V>)
    requires Quiet(h, t) && h.Last().sh.used == 1 && h.Last().sh.buffer == [v]
    requires w in h.Last().pc && h.Last().pc[w] == SendSleep(x)
    ensures Reaches(h, h', h.Last().sh.(free := h.Last().sh.free + 1, used := 0, buffer := []),
                    h.Last().pc[t := Done(Got(v))][w := SendWoken(x)])
  {
    hide IsRun, Account, Enabled, Threads, Memory, Target, SendTarget, ReadTarget;
    h' := ReadPopsOne(h, t, v);
    h' := ReadHandsOver(h', t, v, w, x);
    Tallies.Again(h.Last().pc, t, NotifyRead(v), Done(Got(v)));
  }

  lemma WokenSendThrows<V>(h: Story<V>, t: nat, v: V) returns (h': Story<V>)
    requires h.Runs() && t in h.Last().pc && h.Last().pc[t] == SendWoken(v) && h.Last().sh.mutex == Free
    requires !h.Last().sh.closed && h.Last().sh.free > 0 && !h.Last().config.rollbackNotifies
    ensures Reaches(h, h', h.Last().sh, h.Last().pc[t := Done(ThrewMessage)])
  {
    hide IsRun, Account, Enabled, Threads, Memory, Target, SendTarget, ReadTarget;
    var pc := h.Last().pc;
    h' := GetsMutex(h, t);
    h' := ReservesSlot(h', t, v, true);
    Tallies.Again(pc, t, SendWait(v, true), Store(v));
    h' := StoreThrows(h', t, v);
    Tallies.Again(pc, t, Store(v), Done(ThrewMessage));
  }

  lemma AllAsleepIsStuck<V>(s: State<V>)
    requires forall t | t in s.pc :: s.pc[t].Done? || s.pc[t].SendSleep? || s.pc[t].ReadSleep?
    ensures Stuck(s)
  {
  }

  /** One message is stored, and two senders fall asleep on the full queue. */
  lemma TwoSendersSleep() returns (h: Story<int>)
    ensures h.Runs() && h.states[0].config == h.Last().config == Config(1, MPMC, NoException, false)
    ensures h.Last().sh == Shared(0, 1, [10], false, Free)
    ensures h.Last().pc == map[0 := Done(Sent), 1 := SendSleep(20), 2 := SendSleep(30), 3 := Done(NoCall)]
  {
    hide IsRun, Enabled, Threads, Memory, RolesAfter;
    var idle: map<nat, Pc<int>> := map[0 := Done(NoCall), 1 := Done(NoCall), 2 := Done(NoCall), 3 := Done(NoCall)];
    h := Begins(State(Config(1, MPMC, NoException, false), Shared(1, 0, [], false, Free), map[], idle));
    h := SendCompletes(h, 0, 10);
    h := SendBlocks(h, 1, 20);
    h := SendBlocks(h, 2, 30);
  }

  /** Without the notification of a throwing store a wake-up can be lost for good: sender 2 sleeps on a queue
      with a free slot, the reader sleeps as well, and no thread can take another step. */
  lemma SilentThrowLosesWakeUp() returns (h: Story<int>)
    ensures h.Runs() && !h.states[0].config.rollbackNotifies
    ensures Stuck(h.Last()) && !h.Last().sh.closed && h.Last().sh.free == h.Last().config.capacity
    ensures SomeoneSleeps(h.Last(), true) && SomeoneSleeps(h.Last(), false)
  {
    hide IsRun, Stuck, Enabled, Threads, Memory, RolesAfter, Initial;
    h := TwoSendersSleep();
    h := ReadWakesSender(h, 3, 10, 1, 20);
    h := WokenSendThrows(h, 1, 20);
    h := ReadBlocks(h, 3);
    assert h.Last().pc[2] == SendSleep(30) && h.Last().pc[3] == ReadSleep;
    AllAsleepIsStuck(h.Last());
  }
}
