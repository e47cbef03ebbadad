/** Invariants of the monitor queue: the mutex, the books kept under it, and the wake-ups owed. */
module MonitorInvariant {
  import opened Roles
  import opened Monitor
  import Tallies

  predicate Holding<V>(pc: Pc<V>) {
    || pc.SendEnter? || pc.SendWait? || pc.SendTake? || pc.TrySendTest? || pc.Store? || pc.StoreThrew? || pc.StoreDone?
    || pc.ReadWait? || pc.ReadTake? || pc.TryReadTest? || pc.Pop? || pc.PopThrew? || pc.PopDone? || pc.CloseSet?
  }

  /** Exactly the thread that locked the mutex and has not unlocked it is inside a critical section. */
  ghost predicate Exclusive<V>(s: State<V>) {
    && (s.sh.mutex.HeldBy? ==> s.sh.mutex.t in s.pc)
    && (forall t | t in s.pc :: Holding(s.pc[t]) <==> s.sh.mutex == HeldBy(t))
  }

  /** A sender past its reservation, and a reader past its own. */
  predicate Storing<V>(pc: Pc<V>) { pc.Store? || pc.StoreThrew? || pc.StoreDone? }

  predicate Popping<V>(pc: Pc<V>) { pc.Pop? || pc.PopThrew? || pc.PopDone? }

  /** free_ and used_ account for the capacity and the buffer, up to the reservation of the thread in the monitor. */
  predicate Books<V>(c: Config, sh: Shared<V>, holder: Pc<V>) {
    && sh.free >= 0 && sh.used >= 0
    && sh.free + sh.used + (if Storing(holder) || Popping(holder) then 1 else 0) == c.capacity
    && |sh.buffer| == sh.used + (if holder.StoreDone? || holder.Pop? || holder.PopThrew? then 1 else 0)
    && (Storing(holder) ==> !sh.closed)
    && (holder.SendTake? ==> sh.closed || sh.free > 0)
    && (holder.ReadTake? ==> sh.closed || sh.used > 0)
  }

  /** The control state of the thread in the monitor; any state outside it when there is none. */
  function Holder<V>(s: State<V>): Pc<V> {
    if s.sh.mutex.HeldBy? && s.sh.mutex.t in s.pc then s.pc[s.sh.mutex.t] else Done(NoCall)
  }

  ghost predicate Reserved<V>(s: State<V>) {
    s.config.capacity >= 1 && Exclusive(s) && Books(s.config, s.sh, Holder(s))
  }

  lemma OthersKeepClass<V>(s: State<V>, l: Label<V>, u: nat)
    requires Enabled(s, l) && u in s.pc && u != l.t
    ensures Holding(Apply(s, l).pc[u]) <==> Holding(s.pc[u])
    ensures Holding(s.pc[u]) ==> Apply(s, l).pc[u] == s.pc[u]
    ensures Apply(s, l).pc[u] == if Wakes(s, l, u) then WakeUp(s.pc[u]) else s.pc[u]
  {
    hide Target, Memory;
  }

  ghost predicate LocksMatch<V>(s: State<V>, l: Label<V>)
    requires l.t in s.pc
  {
    var q, sh := Target(s, l), Memory(s, l);
    && (Holding(s.pc[l.t]) || (l.Step? && Locks(s.pc[l.t])) ==> sh.mutex == if Holding(q) then HeldBy(l.t) else Free)
    && (!Holding(s.pc[l.t]) && !(l.Step? && Locks(s.pc[l.t])) ==> sh == s.sh && !Holding(q))
    && (l.Step? && Locks(s.pc[l.t]) ==> s.sh.mutex == Free && Holding(q))
  }

  lemma SenderLocks<V>(s: State<V>, l: Label<V>)
    requires Enabled(s, l) && Sending(s.pc[l.t]) && (Holding(s.pc[l.t]) ==> s.sh.mutex == HeldBy(l.t))
    ensures LocksMatch(s, l)
  {
  }

  lemma ReaderLocks<V>(s: State<V>, l: Label<V>)
    requires Enabled(s, l) && !Sending(s.pc[l.t])
    requires Holding(s.pc[l.t]) ==> s.sh.mutex == HeldBy(l.t) && Books(s.config, s.sh, s.pc[l.t])
    ensures LocksMatch(s, l)
  {
  }

  /** The moving thread enters and leaves the monitor together with the mutex. */
  lemma MoverLocks<V>(s: State<V>, l: Label<V>)
    requires Enabled(s, l) && (Holding(s.pc[l.t]) ==> s.sh.mutex == HeldBy(l.t) && Books(s.config, s.sh, s.pc[l.t]))
    ensures LocksMatch(s, l)
  {
    hide Target, Memory, Books, LocksMatch;
    if Sending(s.pc[l.t]) {
      SenderLocks(s, l);
    } else {
      ReaderLocks(s, l);
    }
  }

  lemma StepExclusive<V>(s: State<V>, l: Label<V>)
    requires Reserved(s) && Enabled(s, l)
    ensures Exclusive(Apply(s, l))
  {
    hide Target, Memory, Books;
    assert Holding(s.pc[l.t]) ==> Holder(s) == s.pc[l.t];
    MoverLocks(s, l);
    forall u | u in s.pc && u != l.t
      ensures Holding(Apply(s, l).pc[u]) <==> Apply(s, l).sh.mutex == HeldBy(u)
    {
      OthersKeepClass(s, l, u);
    }
  }

  lemma SenderBooks<V>(s: State<V>, l: Label<V>)
    requires Enabled(s, l) && Holding(s.pc[l.t]) && Sending(s.pc[l.t]) && Books(s.config, s.sh, s.pc[l.t])
    ensures Books(s.config, Memory(s, l), Target(s, l))
  {
  }

  lemma ReaderBooks<V>(s: State<V>, l: Label<V>)
    requires Enabled(s, l) && Holding(s.pc[l.t]) && !Sending(s.pc[l.t]) && Books(s.config, s.sh, s.pc[l.t])
    ensures Books(s.config, Memory(s, l), Target(s, l))
  {
  }

  lemma LockerBooks<V>(s: State<V>, l: Label<V>)
    requires Enabled(s, l) && l.Step? && Locks(s.pc[l.t]) && Books(s.config, s.sh, Done(NoCall))
    ensures Books(s.config, Memory(s, l), Target(s, l))
  {
  }

  lemma MoverBooks<V>(s: State<V>, l: Label<V>)
    requires Reserved(s) && Enabled(s, l) && (Holding(s.pc[l.t]) || (l.Step? && Locks(s.pc[l.t])))
    ensures Books(s.config, Memory(s, l), Target(s, l))
  {
    hide Books, Memory, Target;
    assert Holding(s.pc[l.t]) ==> Holder(s) == s.pc[l.t];
    MoverLocks(s, l);
    if l.Step? && Locks(s.pc[l.t]) {
      LockerBooks(s, l);
    } else if Sending(s.pc[l.t]) {
      SenderBooks(s, l);
    } else {
      ReaderBooks(s, l);
    }
  }

  lemma StepReserved<V>(s: State<V>, l: Label<V>)
    requires Reserved(s) && Enabled(s, l)
    ensures Reserved(Apply(s, l))
  {
    hide Target, Memory, Books;
    var s' := Apply(s, l);
    StepExclusive(s, l);
    assert Holding(s.pc[l.t]) ==> Holder(s) == s.pc[l.t];
    MoverLocks(s, l);
    if Holding(s.pc[l.t]) || (l.Step? && Locks(s.pc[l.t])) {
      MoverBooks(s, l);
      if !Holding(s'.pc[l.t]) {
        BooksOutside(s.config, s'.sh, s'.pc[l.t]);
      }
    } else if s.sh.mutex.HeldBy? {
      OthersKeepClass(s, l, s.sh.mutex.t);
    }
  }

  lemma BooksOutside<V>(c: Config, sh: Shared<V>, pc: Pc<V>)
    requires Books(c, sh, pc) && !Holding(pc)
    ensures Books(c, sh, Done(NoCall))
  {
  }

  predicate SendSleeps<V>(pc: Pc<V>) { pc.SendSleep? }

  predicate ReadSleeps<V>(pc: Pc<V>) { pc.ReadSleep? }

  /** A sender that was woken and has not yet finished looking at free_ again. */
  predicate SendAwake<V>(pc: Pc<V>) {
    pc.SendWoken? || (pc.SendWait? && pc.woken) || (pc.SendTake? && pc.woken)
  }

  predicate ReadAwake<V>(pc: Pc<V>) {
    pc.ReadWoken? || (pc.ReadWait? && pc.woken) || (pc.ReadTake? && pc.woken)
  }

  predicate ClosingSenders<V>(pc: Pc<V>) { pc.CloseNotFull? }

  predicate Closing<V>(pc: Pc<V>) { pc.CloseNotFull? || pc.CloseNotEmpty? }

  /** While the queue is open, every free slot is owed to a sleeper: it is matched by a notify_one still to
      come or by a woken sender still to look. */
  ghost predicate SendersServed<V>(s: State<V>) {
    !s.sh.closed && Tallies.Count(s.pc, SendSleeps<V>) > 0 ==>
      s.sh.free <= Tallies.Count(s.pc, NotifiesSenders<V>) + Tallies.Count(s.pc, SendAwake<V>)
  }

  ghost predicate ReadersServed<V>(s: State<V>) {
    !s.sh.closed && Tallies.Count(s.pc, ReadSleeps<V>) > 0 ==>
      s.sh.used <= Tallies.Count(s.pc, NotifiesReaders<V>) + Tallies.Count(s.pc, ReadAwake<V>)
  }

  /** Once the queue is closed, a sleeper is still there only while Close has yet to notify. */
  ghost predicate ClosersServe<V>(s: State<V>) {
    && (forall t | t in s.pc && Closing(s.pc[t]) :: s.sh.closed)
    && (s.sh.closed && Tallies.Count(s.pc, SendSleeps<V>) > 0 ==> Tallies.Count(s.pc, ClosingSenders<V>) >= 1)
    && (s.sh.closed && Tallies.Count(s.pc, ReadSleeps<V>) > 0 ==> Tallies.Count(s.pc, Closing<V>) >= 1)
  }

  /** No operation has thrown without passing its wake-up on. */
  ghost predicate NoSilentThrow<V>(s: State<V>) {
    s.config.rollbackNotifies || forall t | t in s.pc :: !s.pc[t].StoreThrew? && !s.pc[t].PopThrew?
  }

  ghost predicate Inv<V>(s: State<V>) {
    Reserved(s) && SendersServed(s) && ReadersServed(s) && ClosersServe(s)
  }

  /** The threads after a step that notifies no one. */
  lemma PlainThreads<V>(s: State<V>, l: Label<V>)
    requires Enabled(s, l) && !l.NotifyOne? && !(l.Step? && Closing(s.pc[l.t]))
    ensures Threads(s, l) == s.pc[l.t := Target(s, l)]
  {
    hide Target;
  }

  lemma NotifyThreads<V>(s: State<V>, l: Label<V>)
    requires Enabled(s, l) && l.NotifyOne?
    ensures l.w != l.t && Threads(s, l) == s.pc[l.t := Target(s, l)][l.w := WakeUp(s.pc[l.w])]
  {
    hide Target;
  }

  /** What a plain step of one thread does to the account of the sending side. */
  lemma PlainSendAccount<V>(s: State<V>, l: Label<V>)
    requires Enabled(s, l) && !l.NotifyOne? && !(l.Step? && Closing(s.pc[l.t])) && !s.sh.closed
    requires s.config.rollbackNotifies || !s.pc[l.t].StoreThrew?
    requires Holding(s.pc[l.t]) ==> Books(s.config, s.sh, s.pc[l.t])
    ensures var pc, q := s.pc[l.t], Target(s, l);
            || (SendSleeps(q) && !SendSleeps(pc) && Memory(s, l).free == s.sh.free == 0)
            || (!(SendSleeps(q) && !SendSleeps(pc)) && NotifiesSenders(pc) && !SomeoneSleeps(s, true))
            || (!(SendSleeps(q) && !SendSleeps(pc)) && Memory(s, l).free - s.sh.free
                  <= Tallies.Bit(NotifiesSenders(q)) - Tallies.Bit(NotifiesSenders(pc))
                     + Tallies.Bit(SendAwake(q)) - Tallies.Bit(SendAwake(pc)))
  {
  }

  lemma PlainReadAccount<V>(s: State<V>, l: Label<V>)
    requires Enabled(s, l) && !l.NotifyOne? && !(l.Step? && Closing(s.pc[l.t])) && !s.sh.closed
    requires s.config.rollbackNotifies || !s.pc[l.t].PopThrew?
    requires Holding(s.pc[l.t]) ==> Books(s.config, s.sh, s.pc[l.t])
    ensures var pc, q := s.pc[l.t], Target(s, l);
            || (ReadSleeps(q) && !ReadSleeps(pc) && Memory(s, l).used == s.sh.used == 0)
            || (!(ReadSleeps(q) && !ReadSleeps(pc)) && NotifiesReaders(pc) && !SomeoneSleeps(s, false))
            || (!(ReadSleeps(q) && !ReadSleeps(pc)) && Memory(s, l).used - s.sh.used
                  <= Tallies.Bit(NotifiesReaders(q)) - Tallies.Bit(NotifiesReaders(pc))
                     + Tallies.Bit(ReadAwake(q)) - Tallies.Bit(ReadAwake(pc)))
  {
  }

  lemma ClosedStays<V>(s: State<V>, l: Label<V>)
    requires Enabled(s, l)
    ensures s.sh.closed ==> Memory(s, l).closed
    ensures Memory(s, l).closed && !s.sh.closed ==> l.Step? && s.pc[l.t].CloseSet? && Target(s, l).CloseNotFull?
  {
  }

  lemma HolderBooks<V>(s: State<V>, t: nat)
    requires Reserved(s) && t in s.pc && Holding(s.pc[t])
    ensures Books(s.config, s.sh, s.pc[t])
  {
    hide Books;
  }

  lemma NoSleepers<V>(s: State<V>)
    ensures !SomeoneSleeps(s, true) ==> Tallies.Count(s.pc, SendSleeps<V>) == 0
    ensures !SomeoneSleeps(s, false) ==> Tallies.Count(s.pc, ReadSleeps<V>) == 0
  {
    if !SomeoneSleeps(s, true) { Tallies.Zero(s.pc, SendSleeps<V>); }
    if !SomeoneSleeps(s, false) { Tallies.Zero(s.pc, ReadSleeps<V>); }
  }

  lemma PlainServesSenders<V>(s: State<V>, l: Label<V>)
    requires Reserved(s) && SendersServed(s) && NoSilentThrow(s) && Enabled(s, l)
    requires !l.NotifyOne? && !(l.Step? && Closing(s.pc[l.t])) && !s.sh.closed
    ensures SendersServed(Apply(s, l))
  {
    hide Target, Memory, Threads, Books, Wakes;
    var q := Target(s, l);
    if Holding(s.pc[l.t]) { HolderBooks(s, l.t); }
    PlainSendAccount(s, l);
    PlainThreads(s, l);
    NoSleepers(s);
    Tallies.Move(s.pc, l.t, q, SendSleeps<V>);
    Tallies.Move(s.pc, l.t, q, NotifiesSenders<V>);
    Tallies.Move(s.pc, l.t, q, SendAwake<V>);
  }

  lemma PlainServesReaders<V>(s: State<V>, l: Label<V>)
    requires Reserved(s) && ReadersServed(s) && NoSilentThrow(s) && Enabled(s, l)
    requires !l.NotifyOne? && !(l.Step? && Closing(s.pc[l.t])) && !s.sh.closed
    ensures ReadersServed(Apply(s, l))
  {
    hide Target, Memory, Threads, Books, Wakes;
    var q := Target(s, l);
    if Holding(s.pc[l.t]) { HolderBooks(s, l.t); }
    PlainReadAccount(s, l);
    PlainThreads(s, l);
    NoSleepers(s);
    Tallies.Move(s.pc, l.t, q, ReadSleeps<V>);
    Tallies.Move(s.pc, l.t, q, NotifiesReaders<V>);
    Tallies.Move(s.pc, l.t, q, ReadAwake<V>);
  }

  /** notify_one hands its debt to the sleeper it wakes. */
  lemma NotifyMoves<V>(s: State<V>, l: Label<V>, p: Pc<V> -> bool)
    requires Enabled(s, l) && l.NotifyOne?
    ensures Tallies.Count(Apply(s, l).pc, p) == Tallies.Count(s.pc, p)
              - Tallies.Bit(p(s.pc[l.t])) + Tallies.Bit(p(Target(s, l)))
              - Tallies.Bit(p(s.pc[l.w])) + Tallies.Bit(p(WakeUp(s.pc[l.w])))
  {
    hide Target, Threads, Memory;
    NotifyThreads(s, l);
    Tallies.Move(s.pc, l.t, Target(s, l), p);
    Tallies.Move(s.pc[l.t := Target(s, l)], l.w, WakeUp(s.pc[l.w]), p);
  }

  lemma NotifyServesSenders<V>(s: State<V>, l: Label<V>)
    requires SendersServed(s) && Enabled(s, l) && l.NotifyOne?
    ensures SendersServed(Apply(s, l))
  {
    hide Threads;
    NotifyMoves(s, l, SendSleeps<V>);
    NotifyMoves(s, l, NotifiesSenders<V>);
    NotifyMoves(s, l, SendAwake<V>);
  }

  lemma NotifyServesReaders<V>(s: State<V>, l: Label<V>)
    requires ReadersServed(s) && Enabled(s, l) && l.NotifyOne?
    ensures ReadersServed(Apply(s, l))
  {
    hide Threads;
    NotifyMoves(s, l, ReadSleeps<V>);
    NotifyMoves(s, l, NotifiesReaders<V>);
    NotifyMoves(s, l, ReadAwake<V>);
  }

  /** A closed queue puts nobody to sleep, and only Close's own thread gives up its duty to notify. */
  lemma ClosedAccount<V>(s: State<V>, l: Label<V>)
    requires Enabled(s, l) && (s.sh.closed || Memory(s, l).closed) && !(l.Step? && Closing(s.pc[l.t])) && !l.NotifyOne?
    ensures var pc, q := s.pc[l.t], Target(s, l);
            && (SendSleeps(q) ==> SendSleeps(pc)) && (ReadSleeps(q) ==> ReadSleeps(pc))
            && (ClosingSenders(q) <==> ClosingSenders(pc) || (s.sh.closed != Memory(s, l).closed))
            && (Closing(q) <==> Closing(pc) || (s.sh.closed != Memory(s, l).closed))
            && (ClosingSenders(pc) ==> s.sh.closed == Memory(s, l).closed)
            && (Closing(pc) ==> s.sh.closed == Memory(s, l).closed)
  {
  }

  lemma PlainServesClosed<V>(s: State<V>, l: Label<V>)
    requires ClosersServe(s) && Enabled(s, l) && Apply(s, l).sh.closed
    requires !l.NotifyOne? && !(l.Step? && Closing(s.pc[l.t]))
    ensures ClosersServe(Apply(s, l))
  {
    hide Target, Memory, Threads, Wakes;
    var q := Target(s, l);
    ClosedAccount(s, l);
    PlainThreads(s, l);
    Tallies.Move(s.pc, l.t, q, SendSleeps<V>);
    Tallies.Move(s.pc, l.t, q, ReadSleeps<V>);
    Tallies.Move(s.pc, l.t, q, ClosingSenders<V>);
    Tallies.Move(s.pc, l.t, q, Closing<V>);
    if s.sh.closed != Memory(s, l).closed {
      Tallies.NonZero(Apply(s, l).pc, l.t, ClosingSenders<V>);
      Tallies.NonZero(Apply(s, l).pc, l.t, Closing<V>);
    }
  }

  lemma NotifyKeepsClosers<V>(s: State<V>, l: Label<V>)
    requires Enabled(s, l) && l.NotifyOne?
    ensures Tallies.Count(Apply(s, l).pc, ClosingSenders<V>) == Tallies.Count(s.pc, ClosingSenders<V>)
    ensures Tallies.Count(Apply(s, l).pc, Closing<V>) == Tallies.Count(s.pc, Closing<V>)
    ensures Apply(s, l).pc.Keys == s.pc.Keys && Apply(s, l).sh == s.sh
    ensures forall t | t in s.pc :: Closing(Apply(s, l).pc[t]) <==> Closing(s.pc[t])
  {
    NotifyMoves(s, l, ClosingSenders<V>);
    NotifyMoves(s, l, Closing<V>);
    NotifyThreads(s, l);
  }

  lemma NotifyServesClosed<V>(s: State<V>, l: Label<V>)
    requires ClosersServe(s) && Enabled(s, l) && l.NotifyOne?
    ensures ClosersServe(Apply(s, l))
  {
    hide Threads, Target;
    NotifyKeepsClosers(s, l);
    NotifyMoves(s, l, SendSleeps<V>);
    NotifyMoves(s, l, ReadSleeps<V>);
    assert !SendSleeps(Target(s, l)) && !ReadSleeps(Target(s, l)) by { NotifierReturns(s, l); }
  }

  lemma NotifierReturns<V>(s: State<V>, l: Label<V>)
    requires Enabled(s, l) && l.NotifyOne?
    ensures Target(s, l).Done?
  {
  }

  /** notify_all empties its wait set. */
  lemma CloseServesClosed<V>(s: State<V>, l: Label<V>)
    requires ClosersServe(s) && Enabled(s, l) && l.Step? && Closing(s.pc[l.t])
    ensures ClosersServe(Apply(s, l))
  {
    var s' := Apply(s, l);
    if s.pc[l.t].CloseNotFull? {
      Tallies.Zero(s'.pc, SendSleeps<V>);
      Tallies.NonZero(s'.pc, l.t, Closing<V>);
    } else {
      Tallies.Zero(s'.pc, ReadSleeps<V>);
      assert Tallies.Where(s'.pc, SendSleeps<V>) == Tallies.Where(s.pc, SendSleeps<V>);
      assert Tallies.Where(s'.pc, ClosingSenders<V>) == Tallies.Where(s.pc, ClosingSenders<V>);
    }
  }

  lemma NotClosing<V>(s: State<V>, l: Label<V>)
    requires ClosersServe(s) && Enabled(s, l) && !Apply(s, l).sh.closed
    ensures ClosersServe(Apply(s, l))
  {
    ClosedStays(s, l);
    hide Memory;
  }

  lemma StepServesClosed<V>(s: State<V>, l: Label<V>)
    requires ClosersServe(s) && Enabled(s, l)
    ensures ClosersServe(Apply(s, l))
  {
    hide Apply, ClosersServe;
    if l.NotifyOne? {
      NotifyServesClosed(s, l);
    } else if l.Step? && Closing(s.pc[l.t]) {
      CloseServesClosed(s, l);
    } else if Apply(s, l).sh.closed {
      PlainServesClosed(s, l);
    } else {
      NotClosing(s, l);
    }
  }

  /** Every step of every thread keeps the invariant, whatever throws, wakes up or barges in. */
  lemma StepInv<V>(s: State<V>, l: Label<V>)
    requires Inv(s) && NoSilentThrow(s) && Enabled(s, l)
    ensures Inv(Apply(s, l))
  {
    hide Memory, Threads, Target, Reserved, NoSilentThrow;
    StepReserved(s, l);
    StepServesClosed(s, l);
    ClosedStays(s, l);
    if !Memory(s, l).closed {
      if l.NotifyOne? {
        NotifyServesSenders(s, l);
        NotifyServesReaders(s, l);
      } else {
        PlainServesSenders(s, l);
        PlainServesReaders(s, l);
      }
    }
  }

  lemma InitInv<V>(s: State<V>)
    requires Initial(s)
    ensures Inv(s)
  {
    Tallies.Zero(s.pc, SendSleeps<V>);
    Tallies.Zero(s.pc, ReadSleeps<V>);
  }

  /** Every state of every run is reserved correctly; if no throw was silent, every wake-up owed is there. */
  lemma {:induction false} RunInv<V>(r: seq<State<V>>, ls: seq<Label<V>>, i: nat)
    requires IsRun(r, ls) && i < |r|
    ensures Reserved(r[i]) && ClosersServe(r[i])
    ensures (forall j | 0 <= j < i :: NoSilentThrow(r[j])) ==> Inv(r[i])
  {
    hide Reserved, SendersServed, ReadersServed, ClosersServe, Apply, Enabled, Initial, NoSilentThrow;
    if i == 0 {
      InitInv(r[0]);
    } else {
      RunInv(r, ls, i - 1);
      assert Enabled(r[i - 1], ls[i - 1]) && r[i - 1 + 1] == Apply(r[i - 1], ls[i - 1]);
      StepReserved(r[i - 1], ls[i - 1]);
      StepServesClosed(r[i - 1], ls[i - 1]);
      if forall j | 0 <= j < i :: NoSilentThrow(r[j]) {
        StepInv(r[i - 1], ls[i - 1]);
      }
    }
  }
}
