/** The bounded MPMC ring, whose sends and reads draw tickets for their slots: when its reads deliver in order. */
module RingTickets {
  import opened Counters
  import opened Roles
  import opened Ring
  import opened RingInvariant
  import opened RingFifo
  import opened RingPermits
  import opened Slots
  import Tallies

  // Overlapping sends may publish out of ticket order, so the theorems speak of runs in which sends do not
  // overlap each other and reads do not overlap each other. A try-read that cancels burns its ticket.

  /** One send at a time and one read at a time, beside each other. */
  ghost predicate Serial<V>(s: State<V>) {
    && (forall t, u | t in s.pc && u in s.pc && Sending(s.pc[t]) && Sending(s.pc[u]) :: t == u)
    && (forall t, u | t in s.pc && u in s.pc && Reading(s.pc[t]) && Reading(s.pc[u]) :: t == u)
  }

  /** straight: every read so far took the slot of its own message, the oldest one not delivered. */
  datatype TicketLog<V> = TicketLog(written: seq<V>, delivered: seq<V>, burnt: nat, straight: bool)

  predicate Burns<V>(s: State<V>, l: Label<V>) { l.Step? && l.t in s.pc && s.pc[l.t].ReadCancelRelease? }

  predicate Takes<V>(s: State<V>, l: Label<V>) {
    l.Step? && l.t in s.pc && s.pc[l.t].ReadSlot? && s.pc[l.t].index < |s.sh.buffer|
  }

  predicate Writes<V>(s: State<V>, l: Label<V>) { l.Step? && l.t in s.pc && s.pc[l.t].WriteSlot? }

  function Log<V>(s: State<V>, l: Label<V>, g: TicketLog<V>): TicketLog<V> {
    TicketLog(
      if Writes(s, l) then g.written + [s.pc[l.t].v] else g.written,
      if Takes(s, l) then g.delivered + [s.sh.buffer[s.pc[l.t].index]] else g.delivered,
      if Burns(s, l) then g.burnt + 1 else g.burnt,
      g.straight && (Takes(s, l) ==> s.pc[l.t].index == |g.delivered| % s.config.capacity))
  }

  ghost function Logged<V>(r: seq<State<V>>, ls: seq<Label<V>>, i: nat): TicketLog<V>
    requires i <= |ls| < |r|
  {
    if i == 0 then TicketLog([], [], 0, true) else Log(r[i - 1], ls[i - 1], Logged(r, ls, i - 1))
  }

  /** Holds a ticket whose message is not written, or not read. */
  predicate WriteDrawn<V>(pc: Pc<V>) { pc.SendCheck? || pc.LoadTail? || pc.WriteSlot? }

  predicate ReadDrawn<V>(pc: Pc<V>) { pc.ReadCheck? || pc.ReadCancelRelease? || pc.ReadSlot? }

  /** Holds a read permit and has no message. */
  predicate Waiting<V>(pc: Pc<V>) { pc.ReadTicket? || ReadDrawn(pc) }

  /** The counters of tickets and permits against the log. */
  ghost predicate Drawn<V>(s: State<V>, g: TicketLog<V>) {
    && s.sh.writeSeq == |g.written| + Tallies.Count(s.pc, WriteDrawn<V>)
    && s.sh.readSeq == |g.delivered| + g.burnt + Tallies.Count(s.pc, ReadDrawn<V>)
    && |g.written| - |g.delivered|
       == s.sh.occupied + Tallies.Count(s.pc, Releasing<V>) + Tallies.Count(s.pc, Waiting<V>)
  }

  /** The tickets in hand: with one send and one read at a time a send has the next position, and a read the
      next one moved on by the burnt tickets. No send cancels. */
  predicate TicketsOk<V>(c: Config, g: TicketLog<V>, pc: Pc<V>) {
    match pc
    case SendCheck(_, slot) => slot == Ticket(|g.written| % c.capacity)
    case SendCancelRelease => false
    case LoadTail(_, slot, _) => slot == Ticket(|g.written| % c.capacity)
    case WriteSlot(_, index, _, _) => index == |g.written| % c.capacity
    case ReadCheck(slot) => slot == Ticket((|g.delivered| + g.burnt) % c.capacity)
    case ReadSlot(index) => index == (|g.delivered| + g.burnt) % c.capacity
    case _ => true
  }

  /** While every read took its own slot, the deliveries are the first messages and the others are in the ring. */
  ghost predicate InOrder<V>(c: Config, sh: Shared<V>, g: TicketLog<V>) {
    && |sh.buffer| == c.capacity && |g.delivered| <= |g.written|
    && (g.straight ==>
          g.delivered <= g.written && forall k | |g.delivered| <= k < |g.written| :: InSlot(c, sh, k) == g.written[k])
  }

  ghost predicate Ticketed<V>(s: State<V>, g: TicketLog<V>) {
    Drawn(s, g) && InOrder(s.config, s.sh, g) && forall t | t in s.pc :: TicketsOk(s.config, g, s.pc[t])
  }

  /** A send that looks at the counter has no uncounted send beside it, so the counter is exact and has room. */
  lemma SerialSeesRoom<V>(s: State<V>, t: nat)
    requires Ledger(s) && Permits(s) && Serial(s) && s.config.overflow.Bounded? && t in s.pc && s.pc[t].SendCheck?
    ensures !IsFull(s.config, s.sh)
  {
    Tallies.NonZero(s.pc, t, SendGuarded<V>);
    Tallies.Zero(s.pc, Uncounted<V>);
    Tallies.Within(s.pc, Unsubtracted<V>, ReadGuarded<V>);
  }

  lemma SenderDrawn<V>(s: State<V>, l: Label<V>, g: TicketLog<V>)
    requires Enabled(s, l) && Sending(s.pc[l.t]) && s.config.Tickets() && FitsSend(s.config, s.pc[l.t])
    requires !s.pc[l.t].SendCancelRelease? && (s.pc[l.t].SendCheck? ==> !IsFull(s.config, s.sh))
    ensures Memory(s, l).writeSeq - |Log(s, l, g).written| - Tallies.Bit(WriteDrawn(Target(s, l)))
              == s.sh.writeSeq - |g.written| - Tallies.Bit(WriteDrawn(s.pc[l.t]))
    ensures |Log(s, l, g).written| - Memory(s, l).occupied - Tallies.Bit(Releasing(Target(s, l)))
              == |g.written| - s.sh.occupied - Tallies.Bit(Releasing(s.pc[l.t]))
    ensures Memory(s, l).readSeq == s.sh.readSeq && !Waiting(s.pc[l.t]) && !Waiting(Target(s, l))
    ensures Log(s, l, g) == g.(written := Log(s, l, g).written)
  {
    hide ReadNext, ReadMemory, Start, IsFull, Alarm;
  }

  lemma ReaderDrawn<V>(s: State<V>, l: Label<V>, g: TicketLog<V>)
    requires Enabled(s, l) && !Sending(s.pc[l.t]) && s.config.Tickets() && FitsRead(s.config, s.pc[l.t])
    requires |s.sh.buffer| == s.config.capacity
    ensures Memory(s, l).readSeq - |Log(s, l, g).delivered| - Log(s, l, g).burnt - Tallies.Bit(ReadDrawn(Target(s, l)))
              == s.sh.readSeq - |g.delivered| - g.burnt - Tallies.Bit(ReadDrawn(s.pc[l.t]))
    ensures |Log(s, l, g).delivered| + Memory(s, l).occupied + Tallies.Bit(Waiting(Target(s, l)))
              == |g.delivered| + s.sh.occupied + Tallies.Bit(Waiting(s.pc[l.t]))
    ensures Memory(s, l).writeSeq == s.sh.writeSeq && !WriteDrawn(s.pc[l.t]) && !WriteDrawn(Target(s, l))
    ensures !Releasing(s.pc[l.t]) && !Releasing(Target(s, l)) && Log(s, l, g).written == g.written
  {
    hide SendNext, SendMemory, IsEmpty, Alarm;
  }

  lemma DrawnParts<V>(pc: Pc<V>)
    ensures ReadDrawn(pc) ==> Waiting(pc)
  {
  }

  lemma StepDrawn<V>(s: State<V>, l: Label<V>, g: TicketLog<V>)
    requires Ticketed(s, g) && Inv(s) && Serial(s) && s.config.Tickets() && Enabled(s, l)
    ensures Drawn(Apply(s, l), Log(s, l, g))
  {
    hide Memory, Target, Sending, Releasing, Waiting, WriteDrawn, ReadDrawn, FitsSend, FitsRead, FitsShared;
    hide Log, RolesAfter, InOrder, Ledger, Permits, Mutexes, Solo, Serial, IsFull;
    assert TicketsOk(s.config, g, s.pc[l.t]);
    var q := Target(s, l);
    Tallies.Move(s.pc, l.t, q, WriteDrawn<V>);
    Tallies.Move(s.pc, l.t, q, ReadDrawn<V>);
    Tallies.Move(s.pc, l.t, q, Waiting<V>);
    Tallies.Move(s.pc, l.t, q, Releasing<V>);
    DrawnParts(s.pc[l.t]);
    DrawnParts(q);
    if Sending(s.pc[l.t]) {
      if s.pc[l.t].SendCheck? { SerialSeesRoom(s, l.t); }
      SenderDrawn(s, l, g);
    } else {
      BufferFits(s);
      ReaderDrawn(s, l, g);
    }
  }

  lemma BufferFits<V>(s: State<V>)
    requires Fits(s)
    ensures |s.sh.buffer| == s.config.capacity
  {
  }

  /** No other thread holds a ticket of the same kind, so a fresh one is for the next position. */
  lemma FreshTickets<V>(s: State<V>, t: nat, g: TicketLog<V>)
    requires Drawn(s, g) && Serial(s) && t in s.pc
    ensures s.pc[t].SendTicket? ==> s.sh.writeSeq == |g.written|
    ensures s.pc[t].ReadTicket? ==> s.sh.readSeq == |g.delivered| + g.burnt
  {
    if s.pc[t].SendTicket? { NoWriteDrawn(s, t); }
    if s.pc[t].ReadTicket? { NoReadDrawn(s, t); }
  }

  lemma NoWriteDrawn<V>(s: State<V>, t: nat)
    requires Serial(s) && t in s.pc && s.pc[t].SendTicket?
    ensures Tallies.Count(s.pc, WriteDrawn<V>) == 0
  {
    forall u | u in s.pc ensures !WriteDrawn(s.pc[u]) {
      assert WriteDrawn(s.pc[u]) ==> Sending(s.pc[u]) && Sending(s.pc[t]);
    }
    Tallies.Zero(s.pc, WriteDrawn<V>);
  }

  lemma NoReadDrawn<V>(s: State<V>, t: nat)
    requires Serial(s) && t in s.pc && s.pc[t].ReadTicket?
    ensures Tallies.Count(s.pc, ReadDrawn<V>) == 0
  {
    forall u | u in s.pc ensures !ReadDrawn(s.pc[u]) {
      assert ReadDrawn(s.pc[u]) ==> Reading(s.pc[u]) && Reading(s.pc[t]);
    }
    Tallies.Zero(s.pc, ReadDrawn<V>);
  }

  lemma SenderTicket<V>(s: State<V>, l: Label<V>, g: TicketLog<V>)
    requires Enabled(s, l) && Sending(s.pc[l.t]) && s.config.Tickets() && FitsSend(s.config, s.pc[l.t])
    requires TicketsOk(s.config, g, s.pc[l.t]) && (s.pc[l.t].SendCheck? ==> !IsFull(s.config, s.sh))
    requires s.pc[l.t].SendTicket? ==> s.sh.writeSeq == |g.written|
    ensures TicketsOk(s.config, Log(s, l, g), Target(s, l))
  {
    hide ReadNext, ReadMemory, Start, IsFull, Alarm;
  }

  lemma ReaderTicket<V>(s: State<V>, l: Label<V>, g: TicketLog<V>)
    requires Enabled(s, l) && !Sending(s.pc[l.t]) && s.config.Tickets() && FitsRead(s.config, s.pc[l.t])
    requires TicketsOk(s.config, g, s.pc[l.t]) && |s.sh.buffer| == s.config.capacity
    requires s.pc[l.t].ReadTicket? ==> s.sh.readSeq == |g.delivered| + g.burnt
    ensures TicketsOk(s.config, Log(s, l, g), Target(s, l))
  {
    hide SendNext, SendMemory, IsEmpty, Alarm;
  }

  /** The log grows on one side only, the moving thread's. */
  lemma LogSides<V>(s: State<V>, l: Label<V>, g: TicketLog<V>)
    requires Enabled(s, l)
    ensures !Sending(s.pc[l.t]) ==> Log(s, l, g).written == g.written
    ensures !Reading(s.pc[l.t]) ==> Log(s, l, g).delivered == g.delivered && Log(s, l, g).burnt == g.burnt
  {
  }

  lemma OneSide<V>(c: Config, g: TicketLog<V>, g': TicketLog<V>, pc: Pc<V>)
    requires TicketsOk(c, g, pc)
    requires Sending(pc) ==> g'.written == g.written
    requires Reading(pc) ==> g'.delivered == g.delivered && g'.burnt == g.burnt
    ensures TicketsOk(c, g', pc)
  {
  }

  lemma StepTickets<V>(s: State<V>, l: Label<V>, g: TicketLog<V>, u: nat)
    requires Ticketed(s, g) && Inv(s) && Serial(s) && s.config.Tickets() && Enabled(s, l) && u in s.pc
    ensures TicketsOk(s.config, Log(s, l, g), Apply(s, l).pc[u])
  {
    hide Memory, Target, Sending, FitsSend, FitsRead, FitsShared, TicketsOk, Log, RolesAfter, InOrder;
    hide Ledger, Permits, Mutexes, Solo, IsFull, Drawn;
    assert TicketsOk(s.config, g, s.pc[l.t]) && TicketsOk(s.config, g, s.pc[u]);
    if u == l.t {
      FreshTickets(s, u, g);
      if Sending(s.pc[u]) {
        if s.pc[u].SendCheck? { SerialSeesRoom(s, u); }
        SenderTicket(s, l, g);
      } else {
        BufferFits(s);
        ReaderTicket(s, l, g);
      }
    } else {
      LogSides(s, l, g);
      OneSide(s.config, g, Log(s, l, g), s.pc[u]);
    }
  }

  /** A writer leaves a slot free, and a reader has something to read. */
  lemma TicketGap<V>(s: State<V>, g: TicketLog<V>)
    requires Drawn(s, g) && Permits(s) && s.config.Tickets()
    ensures 0 <= |g.written| - |g.delivered| <= s.config.capacity
    ensures forall t | t in s.pc && s.pc[t].WriteSlot? :: |g.written| - |g.delivered| < s.config.capacity
    ensures forall t | t in s.pc && s.pc[t].ReadSlot? :: |g.written| - |g.delivered| > 0
  {
    hide Waiting, Releasing, SendGuarded, ReadGuarded, Storing;
    GuardsCoverTickets(s);
    forall t | t in s.pc && s.pc[t].WriteSlot? ensures |g.written| - |g.delivered| < s.config.capacity {
      Tallies.NonZero(s.pc, t, Storing<V>) by { hide *; StoresAndWaits(s.pc[t]); }
    }
    forall t | t in s.pc && s.pc[t].ReadSlot? ensures |g.written| - |g.delivered| > 0 {
      Tallies.NonZero(s.pc, t, Waiting<V>) by { hide *; StoresAndWaits(s.pc[t]); }
    }
  }

  lemma StoresAndWaits<V>(pc: Pc<V>)
    ensures pc.WriteSlot? ==> Storing(pc)
    ensures pc.ReadSlot? ==> Waiting(pc)
  {
  }

  lemma GuardsCoverTickets<V>(s: State<V>)
    ensures Tallies.Count(s.pc, SendGuarded<V>) >= Tallies.Count(s.pc, Storing<V>) + Tallies.Count(s.pc, Releasing<V>)
    ensures Tallies.Count(s.pc, ReadGuarded<V>) >= Tallies.Count(s.pc, Waiting<V>)
  {
    GuardsCover(s);
    Tallies.Within(s.pc, Waiting<V>, ReadGuarded<V>);
  }

  lemma WriteEffect<V>(s: State<V>, l: Label<V>, g: TicketLog<V>)
    requires l.t in s.pc && Writes(s, l)
    ensures Memory(s, l).buffer == Put(s.sh.buffer, s.pc[l.t].index, s.pc[l.t].v)
    ensures Log(s, l, g) == g.(written := g.written + [s.pc[l.t].v])
  {
  }

  lemma TakeEffect<V>(s: State<V>, l: Label<V>, g: TicketLog<V>)
    requires l.t in s.pc && Takes(s, l)
    ensures Memory(s, l).buffer == MovedOut(s.moved, s.sh.buffer, s.pc[l.t].index)
    ensures Log(s, l, g) == g.(delivered := g.delivered + [s.sh.buffer[s.pc[l.t].index]],
                               straight := g.straight && s.pc[l.t].index == |g.delivered| % s.config.capacity)
  {
  }

  lemma StillEffect<V>(s: State<V>, l: Label<V>, g: TicketLog<V>)
    requires Enabled(s, l) && s.config.Tickets() && FitsRead(s.config, s.pc[l.t]) && |s.sh.buffer| == s.config.capacity
    requires !Writes(s, l) && !Takes(s, l)
    ensures Memory(s, l).buffer == s.sh.buffer
    ensures Log(s, l, g) == g.(burnt := Log(s, l, g).burnt)
  {
    hide SendNext, ReadNext, Start;
  }

  lemma WriteInOrder<V>(c: Config, sh: Shared<V>, g: TicketLog<V>, v: V, buffer: seq<V>)
    requires InOrder(c, sh, g) && |g.written| - |g.delivered| < c.capacity
    requires buffer == Put(sh.buffer, |g.written| % c.capacity, v)
    ensures InOrder(c, sh.(buffer := buffer), g.(written := g.written + [v]))
  {
    if g.straight {
      var sh', g' := sh.(buffer := buffer), g.(written := g.written + [v]);
      forall k | |g'.delivered| <= k < |g'.written| ensures InSlot(c, sh', k) == g'.written[k] {
        if k < |g.written| {
          assert InSlot(c, sh, k) == g.written[k];
          DifferentSlots(k, |g.written|, c.capacity);
        }
      }
    }
  }

  lemma TakeInOrder<V>(c: Config, sh: Shared<V>, g: TicketLog<V>, moved: V -> V, index: nat, buffer: seq<V>)
    requires InOrder(c, sh, g) && 0 < |g.written| - |g.delivered| <= c.capacity && index < |sh.buffer|
    requires buffer == MovedOut(moved, sh.buffer, index)
    ensures InOrder(c, sh.(buffer := buffer),
                    g.(delivered := g.delivered + [sh.buffer[index]],
                       straight := g.straight && index == |g.delivered| % c.capacity))
  {
    if g.straight && index == |g.delivered| % c.capacity {
      assert InSlot(c, sh, |g.delivered|) == g.written[|g.delivered|];
      var sh' := sh.(buffer := buffer);
      forall k | |g.delivered| + 1 <= k < |g.written| ensures InSlot(c, sh', k) == g.written[k] {
        assert InSlot(c, sh, k) == g.written[k];
        DifferentSlots(|g.delivered|, k, c.capacity);
      }
    }
  }

  lemma SameInOrder<V>(c: Config, sh: Shared<V>, sh': Shared<V>, g: TicketLog<V>, g': TicketLog<V>)
    requires InOrder(c, sh, g) && sh'.buffer == sh.buffer
    requires g'.written == g.written && g'.delivered == g.delivered && g'.straight == g.straight
    ensures InOrder(c, sh', g')
  {
    forall k | |g.delivered| <= k < |g.written| ensures InSlot(c, sh', k) == InSlot(c, sh, k) {
    }
  }

  lemma StepInOrder<V>(s: State<V>, l: Label<V>, g: TicketLog<V>)
    requires Ticketed(s, g) && Inv(s) && s.config.Tickets() && Enabled(s, l)
    ensures InOrder(s.config, Memory(s, l), Log(s, l, g))
  {
    hide Memory, InOrder, Log, Put, MovedOut, Ledger, Permits, Mutexes, Solo, Drawn, FitsShared, FitsSend, FitsRead;
    TicketGap(s, g);
    BufferFits(s);
    assert TicketsOk(s.config, g, s.pc[l.t]) && FitsRead(s.config, s.pc[l.t]);
    if Writes(s, l) {
      WriteEffect(s, l, g);
      WriteInOrder(s.config, s.sh, g, s.pc[l.t].v, Memory(s, l).buffer);
      SameInOrder(s.config, s.sh.(buffer := Memory(s, l).buffer), Memory(s, l), Log(s, l, g), Log(s, l, g));
    } else if Takes(s, l) {
      TakeEffect(s, l, g);
      TakeInOrder(s.config, s.sh, g, s.moved, s.pc[l.t].index, Memory(s, l).buffer);
      SameInOrder(s.config, s.sh.(buffer := Memory(s, l).buffer), Memory(s, l), Log(s, l, g), Log(s, l, g));
    } else {
      StillEffect(s, l, g);
      SameInOrder(s.config, s.sh, Memory(s, l), g, Log(s, l, g));
    }
  }

  lemma StepTicketed<V>(s: State<V>, l: Label<V>, g: TicketLog<V>)
    requires Ticketed(s, g) && Inv(s) && Serial(s) && s.config.Tickets() && Enabled(s, l)
    ensures Ticketed(Apply(s, l), Log(s, l, g))
  {
    StepDrawn(s, l, g);
    StepInOrder(s, l, g);
    forall u | u in s.pc ensures TicketsOk(s.config, Log(s, l, g), Apply(s, l).pc[u]) {
      StepTickets(s, l, g, u);
    }
    hide Memory, Target, Log, Drawn, InOrder, TicketsOk, Inv, Serial;
  }

  lemma InitTicketed<V>(s: State<V>)
    requires Initial(s)
    ensures Ticketed(s, TicketLog([], [], 0, true))
  {
    Tallies.Zero(s.pc, WriteDrawn<V>);
    Tallies.Zero(s.pc, ReadDrawn<V>);
    Tallies.Zero(s.pc, Waiting<V>);
    Tallies.Zero(s.pc, Releasing<V>);
  }

  lemma {:induction false} RunTicketed<V>(r: seq<State<V>>, ls: seq<Label<V>>, i: nat)
    requires IsRun(r, ls) && i < |r| && r[0].config.Tickets() && forall j | 0 <= j < i :: Serial(r[j])
    ensures Ticketed(r[i], Logged(r, ls, i))
  {
    hide Inv, Enabled, Initial, Apply, Ticketed, Log, Serial;
    RunInv(r, ls, i);
    if i == 0 {
      InitTicketed(r[0]);
    } else {
      RunTicketed(r, ls, i - 1);
      RunInv(r, ls, i - 1);
      assert Enabled(r[i - 1], ls[i - 1]) && r[i - 1 + 1] == Apply(r[i - 1], ls[i - 1]);
      StepTicketed(r[i - 1], ls[i - 1], Logged(r, ls, i - 1));
    }
  }

  /** Adding n falls on the same slot exactly when n goes round the ring. */
  lemma SameSlotExactly(a: nat, n: nat, capacity: int)
    requires capacity > 0
    ensures (a + n) % capacity == a % capacity <==> n % capacity == 0
  {
    var k := (a + n) / capacity - a / capacity;
    assert n == capacity * k + ((a + n) % capacity - a % capacity);
    if (a + n) % capacity == a % capacity {
      IsRemainder(n, k, capacity, 0);
    }
    if n % capacity == 0 {
      var m := n / capacity;
      assert a == capacity * (a / capacity) + a % capacity;
      assert capacity * (a / capacity + m) == capacity * (a / capacity) + capacity * m;
      IsRemainder(a + n, a / capacity + m, capacity, a % capacity);
    }
  }

  /** One read: with one send and one read at a time, the slot a read takes is that of its own message if and only
      if the tickets burnt so far go round the ring; then, if all reads before it did so too, it gets the oldest
      message not delivered, and when the slots hold different messages it gets it only then. */
  lemma ReadTakesItsOwn<V>(r: seq<State<V>>, ls: seq<Label<V>>, i: nat, t: nat)
    requires IsRun(r, ls) && i < |r| && r[0].config.Tickets() && forall j | 0 <= j < i :: Serial(r[j])
    requires t in r[i].pc && r[i].pc[t].ReadSlot?
    ensures |Logged(r, ls, i).delivered| < |Logged(r, ls, i).written|
    ensures r[i].pc[t].index < |r[i].sh.buffer| == r[i].config.capacity
    ensures r[i].pc[t].index == |Logged(r, ls, i).delivered| % r[i].config.capacity
            <==> Logged(r, ls, i).burnt % r[i].config.capacity == 0
    ensures Logged(r, ls, i).straight && Logged(r, ls, i).burnt % r[i].config.capacity == 0 ==>
              r[i].sh.buffer[r[i].pc[t].index] == Logged(r, ls, i).written[|Logged(r, ls, i).delivered|]
    ensures Logged(r, ls, i).straight && AllDifferent(r[i].sh.buffer) ==>
              (r[i].sh.buffer[r[i].pc[t].index] == Logged(r, ls, i).written[|Logged(r, ls, i).delivered|]
               <==> Logged(r, ls, i).burnt % r[i].config.capacity == 0)
  {
    RunInv(r, ls, i);
    RunTicketed(r, ls, i);
    var s, g := r[i], Logged(r, ls, i);
    hide *;
    OwnSlot(s, g, t);
  }

  ghost predicate AllDifferent<V>(q: seq<V>) { forall a, b | 0 <= a < b < |q| :: q[a] != q[b] }

  lemma OwnSlot<V>(s: State<V>, g: TicketLog<V>, t: nat)
    requires Inv(s) && Ticketed(s, g) && s.config.Tickets() && t in s.pc && s.pc[t].ReadSlot?
    ensures |g.delivered| < |g.written| && s.pc[t].index < |s.sh.buffer| == s.config.capacity
    ensures s.pc[t].index == |g.delivered| % s.config.capacity <==> g.burnt % s.config.capacity == 0
    ensures g.straight && g.burnt % s.config.capacity == 0 ==>
              s.sh.buffer[s.pc[t].index] == g.written[|g.delivered|]
    ensures g.straight && AllDifferent(s.sh.buffer) ==>
              (s.sh.buffer[s.pc[t].index] == g.written[|g.delivered|] <==> g.burnt % s.config.capacity == 0)
  {
    hide Ledger, Permits, Mutexes, Solo, Drawn;
    TicketGap(s, g);
    assert TicketsOk(s.config, g, s.pc[t]);
    SameSlotExactly(|g.delivered|, g.burnt, s.config.capacity);
    if g.straight { assert InSlot(s.config, s.sh, |g.delivered|) == g.written[|g.delivered|]; }
  }

  /** The reads of the first i steps. */
  ghost predicate GoneRound<V>(r: seq<State<V>>, ls: seq<Label<V>>, i: nat)
    requires i <= |ls| < |r|
  {
    forall j | 0 <= j < i && Takes(r[j], ls[j]) :: Logged(r, ls, j).burnt % r[j].config.capacity == 0
  }

  /** Every read took the slot of its own message if and only if, at every read, the tickets burnt so far went
      round the ring. */
  lemma {:induction false} StraightExactly<V>(r: seq<State<V>>, ls: seq<Label<V>>, i: nat)
    requires IsRun(r, ls) && i < |r| && r[0].config.Tickets() && forall j | 0 <= j < i :: Serial(r[j])
    ensures Logged(r, ls, i).straight <==> GoneRound(r, ls, i)
  {
    hide Inv, Enabled, Initial, Apply, Ticketed, Serial;
    if i > 0 {
      StraightExactly(r, ls, i - 1);
      assert Enabled(r[i - 1], ls[i - 1]);
      assert GoneRound(r, ls, i) <==>
             GoneRound(r, ls, i - 1)
             && (Takes(r[i - 1], ls[i - 1]) ==> Logged(r, ls, i - 1).burnt % r[i - 1].config.capacity == 0);
      if Takes(r[i - 1], ls[i - 1]) {
        ReadTakesItsOwn(r, ls, i - 1, ls[i - 1].t);
      }
    }
  }

  /** Main result for the bounded MPMC ring: with one send and one read at a time, and at every read a number of
      burnt tickets that goes round the ring, the deliveries are the first written messages, in order, and the
      others lie unread in the slots of their positions. */
  lemma TicketsAreFifo<V>(r: seq<State<V>>, ls: seq<Label<V>>, i: nat)
    requires IsRun(r, ls) && i < |r| && r[0].config.Tickets() && forall j | 0 <= j < i :: Serial(r[j])
    requires GoneRound(r, ls, i)
    ensures Logged(r, ls, i).delivered <= Logged(r, ls, i).written
    ensures |Logged(r, ls, i).written| - |Logged(r, ls, i).delivered| <= r[i].config.capacity == |r[i].sh.buffer|
    ensures forall k | |Logged(r, ls, i).delivered| <= k < |Logged(r, ls, i).written| ::
              InSlot(r[i].config, r[i].sh, k) == Logged(r, ls, i).written[k]
  {
    StraightExactly(r, ls, i);
    RunInv(r, ls, i);
    RunTicketed(r, ls, i);
    var s, g := r[i], Logged(r, ls, i);
    hide *;
    InOrderSays(s, g);
  }

  lemma InOrderSays<V>(s: State<V>, g: TicketLog<V>)
    requires Inv(s) && Ticketed(s, g) && s.config.Tickets() && g.straight
    ensures g.delivered <= g.written && |g.written| - |g.delivered| <= s.config.capacity == |s.sh.buffer|
    ensures forall k | |g.delivered| <= k < |g.written| :: InSlot(s.config, s.sh, k) == g.written[k]
  {
    hide Ledger, Permits, Mutexes, Solo, Drawn;
    TicketGap(s, g);
  }

  /** Only a try-read burns a ticket: a caller that reads with Read alone keeps the order. */
  lemma {:induction false} BlockingReadsBurnNothing<V>(r: seq<State<V>>, ls: seq<Label<V>>, i: nat)
    requires IsRun(r, ls) && i < |r| && forall j | 0 <= j < i :: ls[j].Begin? ==> !ls[j].op.TryRead?
    ensures Logged(r, ls, i).burnt == 0 && forall t | t in r[i].pc :: !TryReading(r[i].pc[t])
    ensures GoneRound(r, ls, i)
  {
    hide Enabled, Memory, RolesAfter, Initial;
    if i == 0 {
      hide *;
      StartsDone(r, ls);
    } else {
      BlockingReadsBurnNothing(r, ls, i - 1);
      var s, l := r[i - 1], ls[i - 1];
      assert Enabled(s, l) && r[i - 1 + 1] == Apply(s, l);
      hide Target, TryReading;
      HasThread(s, l);
      NoTryBegins(s, l);
    }
  }

  lemma StartsDone<V>(r: seq<State<V>>, ls: seq<Label<V>>)
    requires IsRun(r, ls)
    ensures Logged(r, ls, 0).burnt == 0 && forall t | t in r[0].pc :: !TryReading(r[0].pc[t])
    ensures GoneRound(r, ls, 0)
  {
  }

  /** Inside a try-read that can still cancel. */
  predicate TryReading<V>(pc: Pc<V>) {
    || (pc.ReadProbe? && !pc.blocking) || (pc.ReadMode? && !pc.blocking) || (pc.ReadLock? && !pc.blocking)
    || (pc.ReadAcquire? && !pc.blocking) || (pc.ReadTicket? && !pc.blocking) || pc.ReadCheck? || pc.ReadCancelRelease?
  }

  lemma NoTryBegins<V>(s: State<V>, l: Label<V>)
    requires Enabled(s, l) && !TryReading(s.pc[l.t]) && (l.Begin? ==> !l.op.TryRead?)
    ensures !TryReading(Target(s, l)) && !Burns(s, l)
  {
    hide IsFull, IsEmpty, Alarm;
  }
}
