/** The ring that drops the oldest message: how far its counter can go, and the tickets of the bounded MPMC
    ring, whose count goes wrong when a try form cancels. */
module RingOverwrite {
  import opened Counters
  import opened Roles
  import opened Ring
  import opened RingInvariant
  import Tallies

  /** The drop loop ends after its last attempt without having looked at the counter again. */
  predicate Exhausts<V>(s: State<V>, l: Label<V>) {
    l.Step? && l.t in s.pc && s.pc[l.t].DropTest? && s.pc[l.t].attempt >= DROP_ATTEMPTS && IsFull(s.config, s.sh)
  }

  /** A send that has made or found room and has not counted its message. */
  predicate Resolved<V>(pc: Pc<V>) {
    pc.LoadTail? || pc.WriteSlot? || pc.SetTail? || pc.SendRelease? || pc.SendUnlock? || pc.SendCount?
  }

  /** Each send between its look at the counter and its count can take the ring one message further. */
  ghost predicate Room<V>(s: State<V>, p: nat) {
    s.sh.count + Tallies.Count(s.pc, Resolved<V>) <= s.config.capacity + p - 1
  }

  lemma FullMeansFull<V>(c: Config, sh: Shared<V>)
    requires sh.count < SIZE_T_RANGE && !IsFull(c, sh)
    ensures sh.count < c.capacity
  {
  }

  /** A send uses up the room it made, or found the ring not full. */
  lemma SenderRoom<V>(s: State<V>, l: Label<V>)
    requires Enabled(s, l) && Sending(s.pc[l.t]) && s.config.overflow.DropOldest? && FitsSend(s.config, s.pc[l.t])
    requires !Exhausts(s, l)
    ensures Memory(s, l).count + Tallies.Bit(Resolved(Target(s, l))) <= s.sh.count + Tallies.Bit(Resolved(s.pc[l.t]))
            || (Memory(s, l).count == s.sh.count && !IsFull(s.config, s.sh))
  {
    hide ReadNext, ReadMemory, Start, Alarm, IsFull;
  }

  lemma OtherRoom<V>(s: State<V>, l: Label<V>)
    requires Enabled(s, l) && !Sending(s.pc[l.t])
    ensures Memory(s, l).count <= s.sh.count && !Resolved(Target(s, l)) && !Resolved(s.pc[l.t])
  {
    hide SendNext, SendMemory, IsEmpty, Alarm;
  }

  lemma StepRoom<V>(s: State<V>, l: Label<V>, p: nat)
    requires Room(s, p) && Fits(s) && Enabled(s, l) && !Exhausts(s, l)
    requires s.config.overflow.DropOldest? && s.config.capacity + p <= SIZE_T_RANGE
    requires Tallies.Count(Apply(s, l).pc, Resolved<V>) <= p
    ensures Room(Apply(s, l), p)
  {
    hide Memory, Target, FitsSend, FitsRead, FitsShared, Exhausts, RolesAfter, Resolved, Sending, IsFull;
    Tallies.Move(s.pc, l.t, Target(s, l), Resolved<V>);
    if Sending(s.pc[l.t]) {
      SenderRoom(s, l);
      if !IsFull(s.config, s.sh) { FullMeansFull(s.config, s.sh); }
    } else {
      OtherRoom(s, l);
    }
  }

  /** Ring that drops, any number of producers: while at most p sends are between their look at the counter and
      their count, and no drop loop has run out of attempts on a full ring, the counter stays below the capacity
      plus p, by as much as there are such sends. */
  lemma {:induction false} CountIsBounded<V>(r: seq<State<V>>, ls: seq<Label<V>>, i: nat, p: nat)
    requires IsRun(r, ls) && i < |r| && r[0].config.overflow.DropOldest? && p >= 1
    requires r[0].config.capacity + p <= SIZE_T_RANGE
    requires forall j | 0 <= j <= i :: Tallies.Count(r[j].pc, Resolved<V>) <= p
    requires forall j | 0 <= j < i :: !Exhausts(r[j], ls[j])
    ensures r[i].sh.count + Tallies.Count(r[i].pc, Resolved<V>) <= r[i].config.capacity + p - 1
  {
    hide Fits, Ledger, Permits, Mutexes, Solo, Enabled, Apply, Exhausts, Resolved;
    RunInv(r, ls, i);
    if i == 0 {
      StartsWithRoom(r[0], p);
    } else {
      CountIsBounded(r, ls, i - 1, p);
      RunInv(r, ls, i - 1);
      assert Enabled(r[i - 1], ls[i - 1]) && r[i - 1 + 1] == Apply(r[i - 1], ls[i - 1]);
      StepRoom(r[i - 1], ls[i - 1], p);
    }
  }

  lemma StartsWithRoom<V>(s: State<V>, p: nat)
    requires Initial(s) && p >= 1
    ensures Room(s, p)
  {
    Tallies.Zero(s.pc, Resolved<V>);
  }

  lemma SoloResolves<V>(s: State<V>)
    requires Solo(s) && SingleProducer(s.config.category)
    ensures Tallies.Count(s.pc, Resolved<V>) <= 1
  {
    forall t, u | t in s.pc && u in s.pc && Resolved(s.pc[t]) && Resolved(s.pc[u]) ensures t == u {
      assert Sending(s.pc[t]) && Sending(s.pc[u]);
    }
    Tallies.AtMostOne(s.pc, Resolved<V>);
  }

  /** Single producer: the counter, as an integer, stays within the capacity, and below it while a send that has
      room is still to count its message. */
  lemma CountStaysWithinCapacity<V>(r: seq<State<V>>, ls: seq<Label<V>>, i: nat)
    requires IsRun(r, ls) && i < |r|
    requires r[0].config.overflow.DropOldest? && SingleProducer(r[0].config.category)
    requires forall j | 0 <= j < i :: !Exhausts(r[j], ls[j])
    ensures r[i].sh.count <= r[i].config.capacity
    ensures forall t | t in r[i].pc && Resolved(r[i].pc[t]) :: r[i].sh.count < r[i].config.capacity
  {
    hide Fits, Ledger, Permits, Mutexes, Solo, Enabled, Apply, Exhausts, Resolved, Initial;
    forall j | 0 <= j <= i ensures Tallies.Count(r[j].pc, Resolved<V>) <= 1 {
      RunInv(r, ls, j);
      SoloResolves(r[j]);
    }
    CountIsBounded(r, ls, i, 1);
    forall t | t in r[i].pc && Resolved(r[i].pc[t]) ensures r[i].sh.count < r[i].config.capacity {
      Tallies.NonZero(r[i].pc, t, Resolved<V>);
    }
  }

  /** A sender that looks at the counter has no send of its own uncounted, so a single producer never takes a
      wrapped counter for a full ring. */
  lemma SoloSeesTrueCount<V>(r: seq<State<V>>, ls: seq<Label<V>>, i: nat, t: nat)
    requires IsRun(r, ls) && i < |r| && SingleProducer(r[i].config.category)
    requires t in r[i].pc
    requires r[i].pc[t].DropFull? || r[i].pc[t].DropTest? || r[i].pc[t].SendCheck? || r[i].pc[t].SendProbe?
    ensures r[i].sh.count == r[i].sh.occupied + Tallies.Count(r[i].pc, Unsubtracted<V>) >= 0
  {
    hide IsRun, Fits, Mutexes;
    RunInv(r, ls, i);
    Tallies.Zero(r[i].pc, Uncounted<V>);
  }

  /** A write ticket that has not been published, and a read permit that has not drawn its ticket. */
  predicate WriteTicket<V>(pc: Pc<V>) {
    pc.SendCheck? || pc.SendCancelRelease? || pc.LoadTail? || pc.WriteSlot? || pc.SendRelease?
  }

  predicate ReadTicketless<V>(pc: Pc<V>) { pc.ReadTicket? }

  /** How often the first i steps gave a permit back after its ticket was drawn. */
  ghost function Burnt<V>(r: seq<State<V>>, ls: seq<Label<V>>, i: nat, byReader: bool): nat
    requires i <= |ls| < |r|
  {
    if i == 0 then 0 else Burnt(r, ls, i - 1, byReader) + if Burns(r[i - 1], ls[i - 1], byReader) then 1 else 0
  }

  predicate Burns<V>(s: State<V>, l: Label<V>, byReader: bool) {
    l.Step? && l.t in s.pc && if byReader then s.pc[l.t].ReadCancelRelease? else s.pc[l.t].SendCancelRelease?
  }

  ghost predicate Drift<V>(s: State<V>, sends: nat, receives: nat) {
    s.sh.writeSeq - s.sh.readSeq == s.sh.occupied + sends - receives
      + Tallies.Count(s.pc, WriteTicket<V>) + Tallies.Count(s.pc, ReadTicketless<V>)
  }

  lemma SenderDrift<V>(s: State<V>, l: Label<V>)
    requires Enabled(s, l) && Sending(s.pc[l.t]) && s.config.Tickets() && FitsSend(s.config, s.pc[l.t])
    ensures Memory(s, l).writeSeq - Memory(s, l).readSeq - Memory(s, l).occupied
              == s.sh.writeSeq - s.sh.readSeq - s.sh.occupied + Tallies.Bit(Burns(s, l, false))
                 + Tallies.Bit(WriteTicket(Target(s, l))) - Tallies.Bit(WriteTicket(s.pc[l.t]))
    ensures !ReadTicketless(s.pc[l.t]) && !ReadTicketless(Target(s, l)) && !Burns(s, l, true)
  {
    hide ReadNext, ReadMemory, Start, IsFull, Alarm;
  }

  lemma ReaderDrift<V>(s: State<V>, l: Label<V>)
    requires Enabled(s, l) && !Sending(s.pc[l.t]) && s.config.Tickets() && FitsRead(s.config, s.pc[l.t])
    ensures Memory(s, l).writeSeq - Memory(s, l).readSeq - Memory(s, l).occupied
              == s.sh.writeSeq - s.sh.readSeq - s.sh.occupied - Tallies.Bit(Burns(s, l, true))
                 + Tallies.Bit(ReadTicketless(Target(s, l))) - Tallies.Bit(ReadTicketless(s.pc[l.t]))
    ensures !WriteTicket(s.pc[l.t]) && !WriteTicket(Target(s, l)) && !Burns(s, l, false)
  {
    hide SendNext, SendMemory, IsEmpty, Alarm;
  }

  lemma StepDrift<V>(s: State<V>, l: Label<V>, sends: nat, receives: nat)
    requires Drift(s, sends, receives) && Fits(s) && s.config.Tickets() && Enabled(s, l)
    ensures Drift(Apply(s, l), sends + (if Burns(s, l, false) then 1 else 0),
                  receives + if Burns(s, l, true) then 1 else 0)
  {
    hide Memory, Target, Sending, WriteTicket, ReadTicketless, FitsSend, FitsRead, FitsShared, Burns, RolesAfter;
    if Sending(s.pc[l.t]) {
      SenderDrift(s, l);
    } else {
      ReaderDrift(s, l);
    }
    Tallies.Move(s.pc, l.t, Target(s, l), WriteTicket<V>);
    Tallies.Move(s.pc, l.t, Target(s, l), ReadTicketless<V>);
  }

  lemma {:induction false} RunDrift<V>(r: seq<State<V>>, ls: seq<Label<V>>, i: nat)
    requires IsRun(r, ls) && i < |r| && r[0].config.Tickets()
    ensures Drift(r[i], Burnt(r, ls, i, false), Burnt(r, ls, i, true))
  {
    hide Fits, Ledger, Permits, Mutexes, Solo, Enabled, Apply, Burns, Drift;
    RunInv(r, ls, i);
    if i == 0 {
      InitDrift(r[0]);
    } else {
      RunDrift(r, ls, i - 1);
      RunInv(r, ls, i - 1);
      assert Enabled(r[i - 1], ls[i - 1]) && r[i - 1 + 1] == Apply(r[i - 1], ls[i - 1]);
      StepDrift(r[i - 1], ls[i - 1], Burnt(r, ls, i - 1, false), Burnt(r, ls, i - 1, true));
    }
  }

  lemma InitDrift<V>(s: State<V>)
    requires Initial(s)
    ensures Drift(s, 0, 0)
  {
    Tallies.Zero(s.pc, WriteTicket<V>);
    Tallies.Zero(s.pc, ReadTicketless<V>);
  }

  /** Bounded MPMC ring: with no call in flight the unread messages are the distance between the two ticket
      counters if and only if as many sends as reads have cancelled with a ticket in hand. */
  lemma TicketsMatchExactly<V>(r: seq<State<V>>, ls: seq<Label<V>>, i: nat)
    requires IsRun(r, ls) && i < |r| && r[0].config.Tickets() && forall t | t in r[i].pc :: r[i].pc[t].Done?
    ensures r[i].sh.writeSeq - r[i].sh.readSeq == r[i].sh.count <==> Burnt(r, ls, i, false) == Burnt(r, ls, i, true)
    ensures r[i].sh.writeSeq - r[i].sh.readSeq == r[i].sh.count + Burnt(r, ls, i, false) - Burnt(r, ls, i, true)
  {
    hide Enabled, Apply, Initial, Fits, Permits, Mutexes, Solo, Burnt;
    RunInv(r, ls, i);
    RunDrift(r, ls, i);
    Tallies.Zero(r[i].pc, Uncounted<V>);
    Tallies.Zero(r[i].pc, Unsubtracted<V>);
    Tallies.Zero(r[i].pc, WriteTicket<V>);
    Tallies.Zero(r[i].pc, ReadTicketless<V>);
  }
}
