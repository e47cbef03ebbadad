/** How the ring that drops comes to count more messages than it has slots. */
module RingOverwriteWitness {
  import opened Roles
  import opened Ring
  import opened RingWitness
  import Tallies

  /** A send that drops, with a free permit on a ring that is not full: it goes straight to the store. */
  lemma CreditGoesOn<V>(h: Story<V>, t: nat, v: V) returns (h': Story<V>)
    requires h.Runs() && t in h.Last().pc && h.Last().pc[t] == SendCredit(v) && !IsFull(h.Last().config, h.Last().sh)
    ensures h'.Runs() && h'.states[0] == h.states[0]
    ensures h'.Last() == h.Last().(sh := h.Last().sh.(free := if h.Last().sh.free > 0 then h.Last().sh.free - 1
                                                              else h.Last().sh.free),
                                   pc := h.Last().pc[t := LoadTail(v, NoTicket, true)])
  {
    hide IsRun, IsFull, ReadNext, ReadMemory;
    var sh, pc := h.Last().sh, h.Last().pc;
    if sh.free > 0 {
      h' := Walk(h, t, sh.(free := sh.free - 1), DropFull(v));
    } else {
      h' := Stumble(h, Step(t));
    }
    SameCount(h.Last().config, sh, h'.Last().sh);
    h' := LooksAtCount(h', t, v);
    Tallies.Again(pc, t, DropFull(v), LoadTail(v, NoTicket, true));
  }

  lemma LooksAtCount<V>(h: Story<V>, t: nat, v: V) returns (h': Story<V>)
    requires h.Runs() && t in h.Last().pc && h.Last().pc[t] == DropFull(v) && !IsFull(h.Last().config, h.Last().sh)
    ensures h'.Runs() && h'.states[0] == h.states[0]
    ensures h'.Last() == h.Last().(pc := h.Last().pc[t := LoadTail(v, NoTicket, true)])
  {
    hide IsRun, IsFull, ReadNext, ReadMemory;
    h' := Walk(h, t, h.Last().sh, LoadTail(v, NoTicket, true));
  }

  /** A full ring and no permit: the send starts the drop loop. */
  lemma CreditStartsDrop<V>(h: Story<V>, t: nat, v: V) returns (h': Story<V>)
    requires h.Runs() && t in h.Last().pc && h.Last().pc[t] == SendCredit(v)
    requires IsFull(h.Last().config, h.Last().sh) && h.Last().sh.free == 0
    ensures h'.Runs() && h'.states[0] == h.states[0]
    ensures h'.Last() == h.Last().(pc := h.Last().pc[t := DropTest(v, h.Last().sh.head, 0)])
  {
    hide IsRun, IsFull, ReadNext, ReadMemory;
    var sh, pc := h.Last().sh, h.Last().pc;
    h' := Stumble(h, Step(t));
    h' := Walk(h', t, sh, DropLoad(v));
    h' := Walk(h', t, sh, DropTest(v, sh.head, 0));
    Tallies.Again(pc, t, DropFull(v), DropLoad(v));
    Tallies.Again(pc, t, DropLoad(v), DropTest(v, sh.head, 0));
  }

  /** One round of the loop whose compare-and-swap fails without cause. */
  lemma DropFailsOnce<V>(h: Story<V>, t: nat, v: V, attempt: nat) returns (h': Story<V>)
    requires h.Runs() && t in h.Last().pc && h.Last().pc[t] == DropTest(v, h.Last().sh.head, attempt)
    requires IsFull(h.Last().config, h.Last().sh) && attempt < DROP_ATTEMPTS
    ensures h'.Runs() && h'.states[0] == h.states[0]
    ensures h'.Last() == h.Last().(pc := h.Last().pc[t := DropTest(v, h.Last().sh.head, attempt + 1)])
  {
    hide IsRun, IsFull, ReadNext, ReadMemory;
    var sh, pc := h.Last().sh, h.Last().pc;
    h' := Walk(h, t, sh, DropCas(v, sh.head, attempt));
    h' := Stumble(h', Weak(t));
    Tallies.Again(pc, t, DropCas(v, sh.head, attempt), DropTest(v, sh.head, attempt + 1));
  }

  lemma {:induction false} DropFails<V>(h: Story<V>, t: nat, v: V, attempt: nat) returns (h': Story<V>)
    requires h.Runs() && t in h.Last().pc && h.Last().pc[t] == DropTest(v, h.Last().sh.head, attempt)
    requires IsFull(h.Last().config, h.Last().sh) && attempt <= DROP_ATTEMPTS
    ensures h'.Runs() && h'.states[0] == h.states[0]
    ensures h'.Last() == h.Last().(pc := h.Last().pc[t := DropTest(v, h.Last().sh.head, DROP_ATTEMPTS)])
    decreases DROP_ATTEMPTS - attempt
  {
    hide IsRun, IsFull;
    if attempt == DROP_ATTEMPTS {
      h' := h;
      assert h.Last().pc[t := h.Last().pc[t]] == h.Last().pc;
    } else {
      h' := DropFailsOnce(h, t, v, attempt);
      h' := DropFails(h', t, v, attempt + 1);
      Tallies.Again(h.Last().pc, t, DropTest(v, h.Last().sh.head, attempt + 1),
                    DropTest(v, h.Last().sh.head, DROP_ATTEMPTS));
    }
  }

  lemma GivesUpDropping<V>(h: Story<V>, t: nat, v: V) returns (h': Story<V>)
    requires h.Runs() && t in h.Last().pc && h.Last().pc[t] == DropTest(v, h.Last().sh.head, DROP_ATTEMPTS)
    ensures h'.Runs() && h'.states[0] == h.states[0]
    ensures h'.Last() == h.Last().(pc := h.Last().pc[t := LoadTail(v, NoTicket, true)])
  {
    hide IsRun, IsFull, ReadNext, ReadMemory;
    h' := Walk(h, t, h.Last().sh, LoadTail(v, NoTicket, true));
  }

  /** Store, publish and count. */
  lemma StoresAndCounts<V>(h: Story<V>, t: nat, v: V) returns (h': Story<V>)
    requires h.Runs() && t in h.Last().pc && h.Last().pc[t] == LoadTail(v, NoTicket, true)
    requires h.Last().sh.tail < |h.Last().sh.buffer| && !h.Last().config.SendsLock()
    ensures h'.Runs() && h'.states[0] == h.states[0]
    ensures h'.Last() == h.Last().(
                           sh := h.Last().sh.(buffer := h.Last().sh.buffer[h.Last().sh.tail := v],
                                              tail := Next(h.Last().config, h.Last().sh.tail),
                                              occupied := h.Last().sh.occupied + 1, count := h.Last().sh.count + 1),
                           pc := h.Last().pc[t := Done(Sent)])
  {
    hide IsRun, Next, Enabled, SendNext, SendMemory, ReadMemory, Failed, Target, Memory, RolesAfter;
    var pc := h.Last().pc;
    h' := StoresAtTail(h, t, v, true);
    h' := Publishes(h', t);
    h' := Counts(h', t);
    Tallies.Again(pc, t, SendRelease, SendCount);
    Tallies.Again(pc, t, SendCount, Done(Sent));
  }

  const SPSC_RING: Config := Config(1, SPSC, NoException, DropOldest)

  lemma OneMessageStored() returns (h: Story<int>)
    ensures h.Runs() && h.Last().config == SPSC_RING
    ensures h.Last().sh == Shared(0, 1, Free, Free, 0, 0, [10], 1, 0, 0, false)
    ensures h.Last().roles == map[0 := Producer] && h.Last().pc == map[0 := Done(Sent)]
  {
    hide IsRun, Enabled, SendNext, SendMemory, ReadMemory, Failed, Target, Memory, RolesAfter;
    var idle: map<nat, Pc<int>> := map[0 := Done(NoCall)];
    h := Begins(State(SPSC_RING, Copied(), Shared(1, 0, Free, Free, 0, 0, [0], 0, 0, 0, false), map[], idle));
    h := SendEnters(h, 0, 10, true);
    h := CreditGoesOn(h, 0, 10);
    h := StoresAndCounts(h, 0, 10);
  }

  /** Single producer: when the compare-and-swap fails in all 64 attempts, the send goes on without dropping,
      and a ring of one slot counts two messages, of which it holds only the second. */
  lemma ExhaustedLoopOverflows() returns (h: Story<int>)
    ensures h.Runs() && h.Last().config == SPSC_RING
    ensures forall t | t in h.Last().pc :: h.Last().pc[t].Done?
    ensures h.Last().sh.count == h.Last().sh.occupied == 2 > h.Last().config.capacity
    ensures h.Last().sh.buffer == [20]
  {
    hide IsRun, Enabled, SendNext, SendMemory, ReadMemory, Failed, Target, Memory, RolesAfter;
    h := OneMessageStored();
    h := SendEnters(h, 0, 20, true);
    h := CreditStartsDrop(h, 0, 20);
    h := DropFails(h, 0, 20, 0);
    h := GivesUpDropping(h, 0, 20);
    h := StoresAndCounts(h, 0, 20);
  }

  lemma LocksForSending<V>(h: Story<V>, t: nat, v: V) returns (h': Story<V>)
    requires h.Runs() && t in h.Last().pc && h.Last().pc[t] == SendLock(v, true)
    requires h.Last().config.overflow.DropOldest? && h.Last().sh.sendMutex == Free
    ensures h'.Runs() && h'.states[0] == h.states[0]
    ensures h'.Last() == h.Last().(sh := h.Last().sh.(sendMutex := HeldBy(t)), pc := h.Last().pc[t := SendCredit(v)])
  {
    hide IsRun, ReadNext, ReadMemory;
    h' := Walk(h, t, h.Last().sh.(sendMutex := HeldBy(t)), SendCredit(v));
  }

  /** A whole send on an MPSC ring that drops and is not full, up to the count. */
  lemma SendsUncounted<V>(h: Story<V>, t: nat, v: V) returns (h': Story<V>)
    requires h.Runs() && Fresh(h, t, Send(v)) && h.Last().config == TWO_PRODUCERS
             && !IsFull(h.Last().config, h.Last().sh)
    requires h.Last().sh.sendMutex == Free && h.Last().sh.tail == 0 && |h.Last().sh.buffer| == 1
    ensures h'.Runs() && h'.states[0] == h.states[0]
    ensures h'.Last() == h.Last().(
                           sh := h.Last().sh.(free := if h.Last().sh.free > 0 then h.Last().sh.free - 1
                                                      else h.Last().sh.free,
                                              buffer := [v], occupied := h.Last().sh.occupied + 1),
                           roles := h.Last().roles[t := Producer],
                           pc := h.Last().pc[t := SendCount])
  {
    hide IsRun, IsFull, Enabled, SendNext, SendMemory, ReadMemory, Failed, Target, Memory, RolesAfter, Fresh;
    var pc, guard := h.Last().pc, SendLock(v, true);
    h' := SendEnters(h, t, v, true);
    h' := LocksForSending(h', t, v);
    Tallies.Again(pc, t, SendLock(v, true), SendCredit(v));
    SameCount(h.Last().config, h.Last().sh, h'.Last().sh);
    h' := CreditGoesOn(h', t, v);
    Tallies.Again(pc, t, SendCredit(v), LoadTail(v, NoTicket, true));
    h' := StoresUncounted(h', t, v);
    Tallies.Again(pc, t, LoadTail(v, NoTicket, true), SendCount);
  }

  lemma StoresUncounted<V>(h: Story<V>, t: nat, v: V) returns (h': Story<V>)
    requires h.Runs() && t in h.Last().pc && h.Last().pc[t] == LoadTail(v, NoTicket, true)
    requires h.Last().config == TWO_PRODUCERS && h.Last().sh.tail == 0 && |h.Last().sh.buffer| == 1
    ensures h'.Runs() && h'.states[0] == h.states[0]
    ensures h'.Last() == h.Last().(
                           sh := h.Last().sh.(buffer := [v], occupied := h.Last().sh.occupied + 1, sendMutex := Free),
                           pc := h.Last().pc[t := SendCount])
  {
    hide IsRun, Enabled, SendNext, SendMemory, ReadMemory, Failed, Target, Memory, RolesAfter;
    h' := StoresAtTail(h, t, v, true);
    h' := Publishes(h', t);
    Tallies.Again(h.Last().pc, t, SendRelease, SendCount);
  }

  lemma SameCount<V>(c: Config, a: Shared<V>, b: Shared<V>)
    requires a.count == b.count
    ensures IsFull(c, a) == IsFull(c, b)
  {
  }

  const TWO_PRODUCERS: Config := Config(1, MPSC, NoException, DropOldest)

  /** Two producers: a sender unlocks before it counts, so the next one finds room that is gone. No drop loop
      ran out of attempts, and a ring of one slot counts two messages, of which it holds only the second. */
  lemma TwoProducersOverflow() returns (h: Story<int>)
    ensures h.Runs() && h.Last().config == TWO_PRODUCERS
    ensures forall t | t in h.Last().pc :: h.Last().pc[t].Done?
    ensures h.Last().sh.count == h.Last().sh.occupied == 2 > h.Last().config.capacity
    ensures h.Last().sh.buffer == [20]
  {
    hide IsRun, Enabled, SendNext, SendMemory, ReadMemory, Failed, Target, Memory, RolesAfter;
    var idle: map<nat, Pc<int>> := map[0 := Done(NoCall), 1 := Done(NoCall)];
    h := Begins(State(TWO_PRODUCERS, Copied(), Shared(1, 0, Free, Free, 0, 0, [0], 0, 0, 0, false), map[], idle));
    h := SendsUncounted(h, 0, 10);
    h := SendsUncounted(h, 1, 20);
    h := Counts(h, 0);
    h := Counts(h, 1);
  }
}
