/** The bounded ring of the SPSC, MPSC and SPMC categories delivers exactly what was written, in order. */
module RingFifo {
  import opened Roles
  import opened Ring
  import opened RingInvariant
  import opened Slots
  import Tallies

  // The history of a run is read off its steps: a value is written when its sender moves the tail past it, and
  // delivered when its reader moves the head past it. A read moves the message out of its slot before the
  // compare-and-swap of the head, and again from the same slot after each failure, so the history also keeps
  // how many failures each delivery had, and how often the first unread message was moved out of.

  /** losses[k] is the number of failed compare-and-swaps before delivery k. */
  datatype History<V> = History(written: seq<V>, delivered: seq<V>, losses: seq<nat>, wear: nat)

  function Stored<V>(s: State<V>, l: Label<V>): seq<V> {
    if l.t in s.pc && Succeeds(s, l) && s.pc[l.t].SetTail? then [s.pc[l.t].v] else []
  }

  function Taken<V>(s: State<V>, l: Label<V>): seq<V> {
    if l.t in s.pc && Succeeds(s, l) && s.pc[l.t].CasHead? then [s.pc[l.t].value] else []
  }

  function Losses<V>(s: State<V>, l: Label<V>): seq<nat> {
    if l.t in s.pc && Succeeds(s, l) && s.pc[l.t].CasHead? then [s.pc[l.t].lost] else []
  }

  function Wear<V>(s: State<V>, l: Label<V>, wear: nat): nat {
    if l.t !in s.pc || !Succeeds(s, l) then wear
    else if s.pc[l.t].MoveHead? then wear + 1
    else if s.pc[l.t].CasHead? then 0
    else wear
  }

  function Record<V>(s: State<V>, l: Label<V>, g: History<V>): History<V> {
    History(g.written + Stored(s, l), g.delivered + Taken(s, l), g.losses + Losses(s, l), Wear(s, l, g.wear))
  }

  ghost function Recorded<V>(r: seq<State<V>>, ls: seq<Label<V>>, i: nat): History<V>
    requires i <= |ls| < |r|
  {
    if i == 0 then History([], [], [], 0) else Record(r[i - 1], ls[i - 1], Recorded(r, ls, i - 1))
  }

  /** The rings this file speaks of. */
  predicate Ordered(c: Config) { c.overflow.Bounded? && !c.category.MPMC? }

  /** A sender between the two ends of its store, and a reader with a permit and no message yet. */
  predicate Storing<V>(pc: Pc<V>) { pc.LoadTail? || pc.WriteSlot? || pc.SetTail? }

  predicate Releasing<V>(pc: Pc<V>) { pc.SendRelease? }

  predicate Untaken<V>(pc: Pc<V>) {
    pc.ReadCheck? || pc.ReadCancelRelease? || pc.LoadHead? || pc.MoveHead? || pc.CasHead?
  }

  lemma OneWriter<V>(s: State<V>, t: nat, u: nat)
    requires Mutexes(s) && Solo(s) && Ordered(s.config)
    requires t in s.pc && u in s.pc && Storing(s.pc[t]) && Storing(s.pc[u])
    ensures t == u
  {
    assert SendLocked(s.config, s.pc[t]) <==> s.sh.sendMutex == HeldBy(t);
    assert SendLocked(s.config, s.pc[u]) <==> s.sh.sendMutex == HeldBy(u);
    assert Sending(s.pc[t]) && Sending(s.pc[u]);
  }

  lemma OneReader<V>(s: State<V>, t: nat, u: nat)
    requires Mutexes(s) && Solo(s) && Ordered(s.config)
    requires t in s.pc && u in s.pc && Untaken(s.pc[t]) && Untaken(s.pc[u])
    ensures t == u
  {
    assert ReadLocked(s.config, s.pc[t]) <==> s.sh.readMutex == HeldBy(t);
    assert ReadLocked(s.config, s.pc[u]) <==> s.sh.readMutex == HeldBy(u);
    assert Reading(s.pc[t]) && Reading(s.pc[u]);
  }

  /** Unread messages are the occupied permits, those about to be released and those just acquired. */
  ghost predicate Unread<V>(s: State<V>, w: nat, d: nat) {
    w - d == s.sh.occupied + Tallies.Count(s.pc, Releasing<V>) + Tallies.Count(s.pc, Untaken<V>)
  }

  lemma SenderUnread<V>(s: State<V>, l: Label<V>)
    requires Enabled(s, l) && Sending(s.pc[l.t]) && Ordered(s.config) && FitsSend(s.config, s.pc[l.t])
    ensures |Stored(s, l)| == Memory(s, l).occupied - s.sh.occupied
                              + Tallies.Bit(Releasing(Target(s, l))) - Tallies.Bit(Releasing(s.pc[l.t]))
    ensures Taken(s, l) == [] && !Untaken(s.pc[l.t]) && !Untaken(Target(s, l))
  {
    hide ReadNext, ReadMemory, Start, IsFull, Alarm;
  }

  lemma ReaderUnread<V>(s: State<V>, l: Label<V>)
    requires Enabled(s, l) && !Sending(s.pc[l.t]) && Ordered(s.config) && FitsRead(s.config, s.pc[l.t])
    ensures -|Taken(s, l)| == Memory(s, l).occupied - s.sh.occupied
                              + Tallies.Bit(Untaken(Target(s, l))) - Tallies.Bit(Untaken(s.pc[l.t]))
    ensures Stored(s, l) == [] && !Releasing(s.pc[l.t]) && !Releasing(Target(s, l))
  {
    hide SendNext, SendMemory, IsEmpty, Alarm;
  }

  lemma StepUnread<V>(s: State<V>, l: Label<V>, w: nat, d: nat)
    requires Unread(s, w, d) && Fits(s) && Ordered(s.config) && Enabled(s, l)
    ensures Unread(Apply(s, l), w + |Stored(s, l)|, d + |Taken(s, l)|)
  {
    hide Memory, Target, Sending, Releasing, Untaken, FitsSend, FitsRead, FitsShared, Stored, Taken, Ordered;
    if Sending(s.pc[l.t]) {
      SenderUnread(s, l);
    } else {
      ReaderUnread(s, l);
    }
    Tallies.Move(s.pc, l.t, Target(s, l), Releasing<V>);
    Tallies.Move(s.pc, l.t, Target(s, l), Untaken<V>);
  }

  /** A sender that is storing leaves at least one slot that is not unread, and a reader without its message
      has at least one to take. */
  lemma Gap<V>(s: State<V>, w: nat, d: nat)
    requires Unread(s, w, d) && Permits(s) && Ordered(s.config)
    ensures 0 <= w - d <= s.config.capacity
    ensures forall t | t in s.pc && Storing(s.pc[t]) :: w - d < s.config.capacity
    ensures forall t | t in s.pc && Untaken(s.pc[t]) :: w - d > 0
  {
    hide Storing, Untaken, Releasing, SendGuarded, ReadGuarded;
    GuardsCover(s);
    forall t | t in s.pc && Storing(s.pc[t]) ensures w - d < s.config.capacity {
      Tallies.NonZero(s.pc, t, Storing<V>);
    }
    forall t | t in s.pc && Untaken(s.pc[t]) ensures w - d > 0 {
      Tallies.NonZero(s.pc, t, Untaken<V>);
    }
  }

  predicate StoringOrReleasing<V>(pc: Pc<V>) { Storing(pc) || Releasing(pc) }

  lemma GuardsCover<V>(s: State<V>)
    ensures Tallies.Count(s.pc, SendGuarded<V>) >= Tallies.Count(s.pc, Storing<V>) + Tallies.Count(s.pc, Releasing<V>)
    ensures Tallies.Count(s.pc, ReadGuarded<V>) >= Tallies.Count(s.pc, Untaken<V>)
  {
    Tallies.Split(s.pc, StoringOrReleasing<V>, Storing<V>, Releasing<V>);
    Tallies.Within(s.pc, StoringOrReleasing<V>, SendGuarded<V>);
    Tallies.Within(s.pc, Untaken<V>, ReadGuarded<V>);
  }

  lemma NextSlot(c: Config, a: nat)
    ensures Next(c, a % c.capacity) == (a + 1) % c.capacity
  {
    NextRemainder(a, c.capacity);
  }

  /** What a thread in the middle of a store or of a read knows. */
  ghost predicate LocalsOk<V>(moved: V -> V, sh: Shared<V>, g: History<V>, pc: Pc<V>) {
    match pc
    case WriteSlot(_, index, _, _) => index == sh.tail
    case SetTail(v, index, _) => index == sh.tail && index < |sh.buffer| && sh.buffer[index] == v
    case ReadCheck(_) => g.wear == 0
    case ReadCancelRelease => g.wear == 0
    case LoadHead => g.wear == 0
    case MoveHead(head, lost) => head == sh.head && g.wear == lost
    case CasHead(head, value, lost) =>
      && head == sh.head && g.wear == lost + 1
      && |g.delivered| < |g.written| && value == Worn(moved, lost, g.written[|g.delivered|])
    case _ => true
  }

  /** The ring holds the unread messages from the head to the tail, the first one as worn as the history says;
      each delivery is its message, worn by its losses. */
  ghost predicate Holding<V>(c: Config, moved: V -> V, sh: Shared<V>, g: History<V>) {
    && |sh.buffer| == c.capacity && |g.losses| == |g.delivered| <= |g.written|
    && sh.head == |g.delivered| % c.capacity && sh.tail == |g.written| % c.capacity
    && (forall k | 0 <= k < |g.delivered| :: g.delivered[k] == Worn(moved, g.losses[k], g.written[k]))
    && forall i | |g.delivered| <= i < |g.written| :: InSlot(c, sh, i) == Worn(moved, WearOf(g, i), g.written[i])
  }

  function WearOf<V>(g: History<V>, i: nat): nat { if i == |g.delivered| then g.wear else 0 }

  function InSlot<V>(c: Config, sh: Shared<V>, i: nat): V
    requires |sh.buffer| == c.capacity
  {
    sh.buffer[i % c.capacity]
  }

  /** Nobody has moved out of the first unread message while no reader is after it. */
  ghost predicate Untouched<V>(s: State<V>, g: History<V>) {
    (forall t | t in s.pc :: !Untaken(s.pc[t])) ==> g.wear == 0
  }

  ghost predicate Fifo<V>(s: State<V>, g: History<V>) {
    && Unread(s, |g.written|, |g.delivered|) && Holding(s.config, s.moved, s.sh, g) && Untouched(s, g)
    && forall t | t in s.pc :: LocalsOk(s.moved, s.sh, g, s.pc[t])
  }

  /** The steps that touch the ring. */
  predicate Touches<V>(pc: Pc<V>) { pc.WriteSlot? || pc.SetTail? || pc.MoveHead? || pc.CasHead? }

  ghost predicate SameRing<V>(a: Shared<V>, b: Shared<V>) {
    a.buffer == b.buffer && a.head == b.head && a.tail == b.tail
  }

  lemma SenderLocals<V>(s: State<V>, l: Label<V>, g: History<V>)
    requires Enabled(s, l) && Ordered(s.config) && Sending(s.pc[l.t]) && FitsSend(s.config, s.pc[l.t])
    requires LocalsOk(s.moved, s.sh, g, s.pc[l.t]) && |s.sh.buffer| == s.config.capacity
    ensures LocalsOk(s.moved, Memory(s, l), g, Target(s, l))
    ensures !(Succeeds(s, l) && Touches(s.pc[l.t])) ==> SameRing(Memory(s, l), s.sh)
    ensures !(Succeeds(s, l) && (s.pc[l.t].MoveHead? || s.pc[l.t].CasHead?))
  {
    hide ReadNext, ReadMemory, Start, IsFull, Alarm, Worn;
  }

  lemma ReaderLocals<V>(s: State<V>, l: Label<V>, g: History<V>)
    requires Enabled(s, l) && Ordered(s.config) && !Sending(s.pc[l.t]) && FitsRead(s.config, s.pc[l.t])
    requires LocalsOk(s.moved, s.sh, g, s.pc[l.t]) && |s.sh.buffer| == s.config.capacity
    requires s.pc[l.t].ReadAcquire? ==> g.wear == 0
    ensures !(Succeeds(s, l) && (s.pc[l.t].MoveHead? || s.pc[l.t].CasHead?)) ==>
              LocalsOk(s.moved, Memory(s, l), g, Target(s, l))
    ensures !(Succeeds(s, l) && Touches(s.pc[l.t])) ==> SameRing(Memory(s, l), s.sh)
  {
    hide SendNext, SendMemory, IsEmpty, Alarm, Worn;
  }

  /** The steps that leave the history alone, or only append to what was written. */
  lemma MoverLocals<V>(s: State<V>, l: Label<V>, g: History<V>)
    requires Enabled(s, l) && Ordered(s.config) && Fits(s) && LocalsOk(s.moved, s.sh, g, s.pc[l.t])
    requires s.pc[l.t].ReadAcquire? ==> g.wear == 0
    ensures !(Succeeds(s, l) && (s.pc[l.t].MoveHead? || s.pc[l.t].CasHead?)) ==>
              LocalsOk(s.moved, Memory(s, l), g, Target(s, l))
    ensures !(Succeeds(s, l) && Touches(s.pc[l.t])) ==> SameRing(Memory(s, l), s.sh)
  {
    hide Memory, Target, Sending, FitsSend, FitsRead, LocalsOk, Ordered, Touches, Succeeds, SameRing;
    if Sending(s.pc[l.t]) {
      SenderLocals(s, l, g);
    } else {
      ReaderLocals(s, l, g);
    }
  }

  /** The four steps that touch the ring, on the fields and on the history. */
  lemma WriteEffect<V>(s: State<V>, l: Label<V>, g: History<V>)
    requires l.t in s.pc && Succeeds(s, l) && s.pc[l.t].WriteSlot?
    ensures Memory(s, l) == s.sh.(buffer := Put(s.sh.buffer, s.pc[l.t].index, s.pc[l.t].v))
    ensures Record(s, l, g) == g
  {
  }

  lemma SetTailEffect<V>(s: State<V>, l: Label<V>, g: History<V>)
    requires l.t in s.pc && Succeeds(s, l) && s.pc[l.t].SetTail?
    ensures Memory(s, l) == s.sh.(tail := Next(s.config, s.pc[l.t].index))
    ensures Record(s, l, g) == g.(written := g.written + [s.pc[l.t].v])
    ensures Target(s, l).SendRelease? || Target(s, l).SendUnlock? || Target(s, l).SendCount?
  {
  }

  lemma MoveEffect<V>(s: State<V>, l: Label<V>, g: History<V>)
    requires l.t in s.pc && Succeeds(s, l) && s.pc[l.t].MoveHead? && s.pc[l.t].head < |s.sh.buffer|
    ensures Memory(s, l) == s.sh.(buffer := MovedOut(s.moved, s.sh.buffer, s.pc[l.t].head))
    ensures Record(s, l, g) == g.(wear := g.wear + 1)
    ensures Target(s, l) == CasHead(s.pc[l.t].head, s.sh.buffer[s.pc[l.t].head], s.pc[l.t].lost)
  {
  }

  lemma CasEffect<V>(s: State<V>, l: Label<V>, g: History<V>)
    requires l.t in s.pc && Succeeds(s, l) && s.pc[l.t].CasHead?
    ensures Memory(s, l) == s.sh.(head := Next(s.config, s.pc[l.t].head))
    ensures Record(s, l, g) ==
            g.(delivered := g.delivered + [s.pc[l.t].value], losses := g.losses + [s.pc[l.t].lost], wear := 0)
    ensures Target(s, l).ReadCount?
  {
  }

  lemma NoEffect<V>(s: State<V>, l: Label<V>, g: History<V>)
    requires l.t in s.pc && !(Succeeds(s, l) && Touches(s.pc[l.t]))
    ensures Record(s, l, g) == g
  {
  }

  /** Writing the free slot at the tail leaves the unread ones alone. */
  lemma WriteKeeps<V>(c: Config, moved: V -> V, sh: Shared<V>, g: History<V>, v: V)
    requires Holding(c, moved, sh, g) && |g.written| - |g.delivered| < c.capacity
    ensures Holding(c, moved, sh.(buffer := Put(sh.buffer, sh.tail, v)), g)
  {
    hide Worn;
    var sh' := sh.(buffer := Put(sh.buffer, sh.tail, v));
    forall i | |g.delivered| <= i < |g.written| ensures InSlot(c, sh', i) == InSlot(c, sh, i) {
      DifferentSlots(i, |g.written|, c.capacity);
    }
  }

  lemma HeadIsNotTail<V>(c: Config, moved: V -> V, sh: Shared<V>, g: History<V>)
    requires Holding(c, moved, sh, g) && 0 < |g.written| - |g.delivered| < c.capacity
    ensures sh.head != sh.tail
  {
    DifferentSlots(|g.delivered|, |g.written|, c.capacity);
  }

  lemma SetTailKeeps<V>(c: Config, moved: V -> V, sh: Shared<V>, g: History<V>, v: V)
    requires Holding(c, moved, sh, g) && sh.tail < |sh.buffer| && sh.buffer[sh.tail] == v
    requires |g.written| == |g.delivered| ==> g.wear == 0
    ensures Holding(c, moved, sh.(tail := Next(c, sh.tail)), g.(written := g.written + [v]))
  {
    var sh', g' := sh.(tail := Next(c, sh.tail)), g.(written := g.written + [v]);
    NextSlot(c, |g.written|);
    forall i | |g'.delivered| <= i < |g'.written|
      ensures InSlot(c, sh', i) == Worn(moved, WearOf(g', i), g'.written[i])
    {
      if i < |g.written| { assert InSlot(c, sh, i) == Worn(moved, WearOf(g, i), g.written[i]); }
    }
  }

  /** Moving out of the first unread message wears it once more. */
  lemma MoveKeeps<V>(c: Config, moved: V -> V, sh: Shared<V>, g: History<V>)
    requires Holding(c, moved, sh, g) && 0 < |g.written| - |g.delivered| <= c.capacity
    ensures sh.head < |sh.buffer| && sh.buffer[sh.head] == Worn(moved, g.wear, g.written[|g.delivered|])
    ensures Holding(c, moved, sh.(buffer := MovedOut(moved, sh.buffer, sh.head)), g.(wear := g.wear + 1))
  {
    var d, sh', g' := |g.delivered|, sh.(buffer := MovedOut(moved, sh.buffer, sh.head)), g.(wear := g.wear + 1);
    assert InSlot(c, sh, d) == Worn(moved, WearOf(g, d), g.written[d]);
    forall i | d <= i < |g.written| ensures InSlot(c, sh', i) == Worn(moved, WearOf(g', i), g.written[i]) {
      assert InSlot(c, sh, i) == Worn(moved, WearOf(g, i), g.written[i]);
      if i > d { DifferentSlots(d, i, c.capacity); }
    }
  }

  lemma CasKeeps<V>(c: Config, moved: V -> V, sh: Shared<V>, g: History<V>, v: V, lost: nat)
    requires Holding(c, moved, sh, g) && |g.delivered| < |g.written|
    requires v == Worn(moved, lost, g.written[|g.delivered|])
    ensures Holding(c, moved, sh.(head := Next(c, sh.head)),
                    g.(delivered := g.delivered + [v], losses := g.losses + [lost], wear := 0))
  {
    var sh' := sh.(head := Next(c, sh.head));
    var g' := g.(delivered := g.delivered + [v], losses := g.losses + [lost], wear := 0);
    NextSlot(c, |g.delivered|);
    forall i | |g'.delivered| <= i < |g'.written|
      ensures InSlot(c, sh', i) == Worn(moved, WearOf(g', i), g'.written[i])
    {
      assert InSlot(c, sh, i) == Worn(moved, WearOf(g, i), g.written[i]);
    }
  }

  lemma SameHolding<V>(c: Config, moved: V -> V, sh: Shared<V>, sh': Shared<V>, g: History<V>)
    requires Holding(c, moved, sh, g) && SameRing(sh', sh)
    ensures Holding(c, moved, sh', g)
  {
    hide Worn;
    forall i | |g.delivered| <= i < |g.written| ensures InSlot(c, sh', i) == InSlot(c, sh, i) {
    }
  }

  lemma HoldingSizes<V>(c: Config, moved: V -> V, sh: Shared<V>, g: History<V>)
    requires Holding(c, moved, sh, g)
    ensures |sh.buffer| == c.capacity && |g.delivered| <= |g.written| && sh.head < |sh.buffer| && sh.tail < |sh.buffer|
  {
  }

  /** With nothing unread nobody has moved out of anything. */
  lemma WearNeedsMessage<V>(s: State<V>, g: History<V>)
    requires Fifo(s, g) && Permits(s) && Ordered(s.config)
    ensures |g.written| == |g.delivered| ==> g.wear == 0
  {
    hide Holding, LocalsOk, Unread;
    Gap(s, |g.written|, |g.delivered|);
  }

  /** A thread about to acquire a permit is the only reader. */
  lemma AcquirerIsAlone<V>(s: State<V>, t: nat, g: History<V>)
    requires Mutexes(s) && Solo(s) && Ordered(s.config) && Untouched(s, g) && t in s.pc && s.pc[t].ReadAcquire?
    ensures g.wear == 0
  {
    forall u | u in s.pc ensures !Untaken(s.pc[u]) {
      hide SendLocked, SendGuarded;
      assert ReadLocked(s.config, s.pc[t]) <==> s.sh.readMutex == HeldBy(t);
      assert ReadLocked(s.config, s.pc[u]) <==> s.sh.readMutex == HeldBy(u);
    }
  }

  lemma StepHolding<V>(s: State<V>, l: Label<V>, g: History<V>)
    requires Fifo(s, g) && Inv(s) && Ordered(s.config) && Enabled(s, l)
    ensures Holding(s.config, s.moved, Memory(s, l), Record(s, l, g))
    ensures LocalsOk(s.moved, Memory(s, l), Record(s, l, g), Target(s, l))
  {
    hide Holding, Memory, Target, Record, Fits, Ledger, Permits, Mutexes, Touches;
    hide Solo, Unread, Ordered, Next, Put, MovedOut, Sending, Succeeds, Enabled, Untouched, Worn;
    Gap(s, |g.written|, |g.delivered|);
    HoldingSizes(s.config, s.moved, s.sh, g);
    HasThread(s, l);
    WearNeedsMessage(s, g);
    assert LocalsOk(s.moved, s.sh, g, s.pc[l.t]);
    if s.pc[l.t].ReadAcquire? { AcquirerIsAlone(s, l.t, g); }
    MoverLocals(s, l, g);
    if Succeeds(s, l) && s.pc[l.t].WriteSlot? {
      WriteEffect(s, l, g);
      WriteKeeps(s.config, s.moved, s.sh, g, s.pc[l.t].v);
    } else if Succeeds(s, l) && s.pc[l.t].SetTail? {
      SetTailEffect(s, l, g);
      SetTailKeeps(s.config, s.moved, s.sh, g, s.pc[l.t].v);
    } else if Succeeds(s, l) && s.pc[l.t].MoveHead? {
      MoveEffect(s, l, g);
      MoveKeeps(s.config, s.moved, s.sh, g);
    } else if Succeeds(s, l) && s.pc[l.t].CasHead? {
      CasEffect(s, l, g);
      CasKeeps(s.config, s.moved, s.sh, g, s.pc[l.t].value, s.pc[l.t].lost);
    } else {
      NotTouching(s, l);
      NoEffect(s, l, g);
      SameHolding(s.config, s.moved, s.sh, Memory(s, l), g);
    }
  }

  lemma NotTouching<V>(s: State<V>, l: Label<V>)
    requires l.t in s.pc
    ensures Touches(s.pc[l.t]) <==>
            s.pc[l.t].WriteSlot? || s.pc[l.t].SetTail? || s.pc[l.t].MoveHead? || s.pc[l.t].CasHead?
  {
  }

  /** No step of one thread spoils what another thread knows. */
  lemma OtherLocals<V>(s: State<V>, l: Label<V>, u: nat, g: History<V>)
    requires Fifo(s, g) && Inv(s) && Ordered(s.config) && Enabled(s, l) && u in s.pc && u != l.t
    ensures LocalsOk(s.moved, Memory(s, l), Record(s, l, g), s.pc[u])
  {
    hide Holding, Memory, Target, Record, Fits, Ledger, Permits, Mutexes;
    hide Solo, Unread, Ordered, Next, Sending, Succeeds, Enabled, Untouched, Worn;
    Gap(s, |g.written|, |g.delivered|);
    HoldingSizes(s.config, s.moved, s.sh, g);
    HasThread(s, l);
    assert LocalsOk(s.moved, s.sh, g, s.pc[l.t]) && LocalsOk(s.moved, s.sh, g, s.pc[u]);
    if Storing(s.pc[l.t]) && Storing(s.pc[u]) { OneWriter(s, l.t, u); }
    if Untaken(s.pc[l.t]) && Untaken(s.pc[u]) { OneReader(s, l.t, u); }
    if Succeeds(s, l) && s.pc[l.t].WriteSlot? {
      WriteEffect(s, l, g);
    } else if Succeeds(s, l) && s.pc[l.t].SetTail? {
      SetTailEffect(s, l, g);
    } else if Succeeds(s, l) && s.pc[l.t].MoveHead? {
      MoveEffect(s, l, g);
      if Storing(s.pc[u]) { HeadIsNotTail(s.config, s.moved, s.sh, g); }
    } else if Succeeds(s, l) && s.pc[l.t].CasHead? {
      CasEffect(s, l, g);
    } else {
      NoEffect(s, l, g);
      if s.pc[l.t].ReadAcquire? { AcquirerIsAlone(s, l.t, g); }
      MoverLocals(s, l, g);
    }
  }

  lemma StepUntouched<V>(s: State<V>, l: Label<V>, g: History<V>)
    requires Fifo(s, g) && Inv(s) && Ordered(s.config) && Enabled(s, l)
    ensures Untouched(Apply(s, l), Record(s, l, g))
  {
    hide Holding, Memory, Target, Record, Fits, Ledger, Permits, Mutexes, RolesAfter;
    hide Solo, Unread, Ordered, Enabled, Worn, Succeeds, Untaken;
    HasThread(s, l);
    assert LocalsOk(s.moved, s.sh, g, s.pc[l.t]);
    WearStays(s, l, g);
    if Record(s, l, g).wear != 0 {
      if Untaken(Target(s, l)) {
        assert Apply(s, l).pc[l.t] == Target(s, l);
      } else {
        var u :| u in s.pc && Untaken(s.pc[u]);
        assert Apply(s, l).pc[u] == s.pc[u];
      }
    }
  }

  /** Wear only stays while a thread stays after the message. */
  lemma WearStays<V>(s: State<V>, l: Label<V>, g: History<V>)
    requires Enabled(s, l) && LocalsOk(s.moved, s.sh, g, s.pc[l.t])
    ensures Record(s, l, g).wear != 0 && !Untaken(Target(s, l)) ==>
              Record(s, l, g).wear == g.wear && !Untaken(s.pc[l.t])
  {
    hide SendNext, Worn;
  }

  lemma StepFifo<V>(s: State<V>, l: Label<V>, g: History<V>)
    requires Fifo(s, g) && Inv(s) && Ordered(s.config) && Enabled(s, l)
    ensures Fifo(Apply(s, l), Record(s, l, g))
  {
    StepUnread(s, l, |g.written|, |g.delivered|);
    RecordSizes(s, l, g);
    hide Holding, LocalsOk, Memory, Target, Record, Unread, Ledger, Permits, Mutexes, Solo, Ordered, Untouched;
    hide Enabled, RolesAfter, Fits, Stored, Taken;
    HasThread(s, l);
    StepHolding(s, l, g);
    StepUntouched(s, l, g);
    forall u | u in s.pc && u != l.t ensures LocalsOk(s.moved, Memory(s, l), Record(s, l, g), s.pc[u]) {
      OtherLocals(s, l, u, g);
    }
  }

  lemma RecordSizes<V>(s: State<V>, l: Label<V>, g: History<V>)
    ensures |Record(s, l, g).written| == |g.written| + |Stored(s, l)|
    ensures |Record(s, l, g).delivered| == |g.delivered| + |Taken(s, l)|
  {
  }

  lemma InitFifo<V>(s: State<V>)
    requires Initial(s)
    ensures Fifo(s, History([], [], [], 0))
  {
    Tallies.Zero(s.pc, Releasing<V>);
    Tallies.Zero(s.pc, Untaken<V>);
  }

  lemma {:induction false} RunFifo<V>(r: seq<State<V>>, ls: seq<Label<V>>, i: nat)
    requires IsRun(r, ls) && i < |r| && Ordered(r[0].config)
    ensures Fifo(r[i], Recorded(r, ls, i))
  {
    hide Inv, Enabled, Initial, Apply, Fifo, Record, Ordered;
    RunInv(r, ls, i);
    if i == 0 {
      InitFifo(r[0]);
    } else {
      RunFifo(r, ls, i - 1);
      RunInv(r, ls, i - 1);
      assert Enabled(r[i - 1], ls[i - 1]) && r[i - 1 + 1] == Apply(r[i - 1], ls[i - 1]);
      StepFifo(r[i - 1], ls[i - 1], Recorded(r, ls, i - 1));
    }
  }

  /** Main result: in every run delivery k is written message k, moved out of once for each compare-and-swap that
      its read lost; what is behind the first unread message lies untouched in the ring, in order; no more than
      the capacity is unread. With no call in flight all that is unread is untouched, and count_ is its number. */
  lemma RunIsFifo<V>(r: seq<State<V>>, ls: seq<Label<V>>, i: nat)
    requires IsRun(r, ls) && i < |r| && Ordered(r[0].config)
    ensures |Recorded(r, ls, i).losses| == |Recorded(r, ls, i).delivered| <= |Recorded(r, ls, i).written|
    ensures |Recorded(r, ls, i).written| - |Recorded(r, ls, i).delivered| <= r[i].config.capacity == |r[i].sh.buffer|
    ensures forall k | 0 <= k < |Recorded(r, ls, i).delivered| ::
              Recorded(r, ls, i).delivered[k] ==
              Worn(r[0].moved, Recorded(r, ls, i).losses[k], Recorded(r, ls, i).written[k])
    ensures forall k | |Recorded(r, ls, i).delivered| < k < |Recorded(r, ls, i).written| ::
              InSlot(r[i].config, r[i].sh, k) == Recorded(r, ls, i).written[k]
    ensures (forall t | t in r[i].pc :: r[i].pc[t].Done?) ==>
              |Recorded(r, ls, i).written| - |Recorded(r, ls, i).delivered| == r[i].sh.count
    ensures (forall t | t in r[i].pc :: r[i].pc[t].Done?) ==>
              forall k | |Recorded(r, ls, i).delivered| <= k < |Recorded(r, ls, i).written| ::
                InSlot(r[i].config, r[i].sh, k) == Recorded(r, ls, i).written[k]
  {
    RunInv(r, ls, i);
    RunFifo(r, ls, i);
    var s, g := r[i], Recorded(r, ls, i);
    hide Enabled, Apply, Initial, Fits, Ledger, Permits, Mutexes, Solo, Recorded, Unread, Ordered, LocalsOk;
    Gap(s, |g.written|, |g.delivered|);
    FreshAreUnworn(s.config, s.moved, s.sh, g);
    if forall t | t in s.pc :: s.pc[t].Done? {
      AtRest(s, |g.written|, |g.delivered|);
    }
  }

  lemma FreshAreUnworn<V>(c: Config, moved: V -> V, sh: Shared<V>, g: History<V>)
    requires Holding(c, moved, sh, g)
    ensures forall k | |g.delivered| < k < |g.written| :: InSlot(c, sh, k) == g.written[k]
    ensures g.wear == 0 ==> forall k | |g.delivered| <= k < |g.written| :: InSlot(c, sh, k) == g.written[k]
  {
    forall k | |g.delivered| <= k < |g.written| && (g.wear == 0 || k != |g.delivered|)
      ensures InSlot(c, sh, k) == g.written[k]
    {
      assert InSlot(c, sh, k) == Worn(moved, WearOf(g, k), g.written[k]);
    }
  }

  lemma AtRest<V>(s: State<V>, w: nat, d: nat)
    requires Unread(s, w, d) && Ledger(s) && forall t | t in s.pc :: s.pc[t].Done?
    ensures w - d == s.sh.count
  {
    Tallies.Zero(s.pc, Releasing<V>);
    Tallies.Zero(s.pc, Untaken<V>);
    Tallies.Zero(s.pc, Uncounted<V>);
    Tallies.Zero(s.pc, Unsubtracted<V>);
  }

  /** Moving a message out leaves it as it was, as for a type that is copied. */
  ghost predicate Copies<V(!new)>(moved: V -> V) { forall v :: moved(v) == v }

  lemma {:induction false} CopiesDoNotWear<V(!new)>(moved: V -> V, n: nat, v: V)
    requires Copies(moved)
    ensures Worn(moved, n, v) == v
  {
    if n > 0 { CopiesDoNotWear(moved, n - 1, v); }
  }

  /** Exact delivery: the deliveries are the first written messages, in order, if and only if every one of them
      survives its losses; so they are whenever no compare-and-swap of a read failed, and for copied types. */
  lemma DeliversExactly<V(!new)>(r: seq<State<V>>, ls: seq<Label<V>>, i: nat)
    requires IsRun(r, ls) && i < |r| && Ordered(r[0].config)
    ensures Recorded(r, ls, i).delivered <= Recorded(r, ls, i).written <==>
            forall k | 0 <= k < |Recorded(r, ls, i).losses| && k < |Recorded(r, ls, i).written| ::
              Worn(r[0].moved, Recorded(r, ls, i).losses[k], Recorded(r, ls, i).written[k])
                == Recorded(r, ls, i).written[k]
    ensures (forall k | 0 <= k < |Recorded(r, ls, i).losses| :: Recorded(r, ls, i).losses[k] == 0) ==>
              Recorded(r, ls, i).delivered <= Recorded(r, ls, i).written
    ensures Copies(r[0].moved) ==> Recorded(r, ls, i).delivered <= Recorded(r, ls, i).written
  {
    RunIsFifo(r, ls, i);
    var g, moved := Recorded(r, ls, i), r[0].moved;
    hide *;
    PrefixExactly(g.written, g.delivered, g.losses, moved);
  }

  lemma PrefixExactly<V(!new)>(w: seq<V>, d: seq<V>, losses: seq<nat>, moved: V -> V)
    requires |losses| == |d| <= |w| && forall k | 0 <= k < |d| :: d[k] == Worn(moved, losses[k], w[k])
    ensures d <= w <==> forall k | 0 <= k < |losses| && k < |w| :: Worn(moved, losses[k], w[k]) == w[k]
    ensures (forall k | 0 <= k < |losses| :: losses[k] == 0) ==> d <= w
    ensures Copies(moved) ==> d <= w
  {
    if d <= w {
      forall k | 0 <= k < |losses| && k < |w| ensures Worn(moved, losses[k], w[k]) == w[k] {
        assert d[k] == w[k];
      }
    }
    if Copies(moved) {
      forall k | 0 <= k < |d| ensures d[k] == w[k] {
        CopiesDoNotWear(moved, losses[k], w[k]);
      }
    }
  }

  /** A writer and a reader inside their accesses to the buffer are on different slots: in unwrapped positions
      the tail is ahead of the head by at least one and by less than the capacity. */
  lemma AccessesAreDisjoint<V>(r: seq<State<V>>, ls: seq<Label<V>>, i: nat, t: nat, u: nat)
    requires IsRun(r, ls) && i < |r| && Ordered(r[0].config)
    requires t in r[i].pc && r[i].pc[t].WriteSlot?
    requires u in r[i].pc && (r[i].pc[u].MoveHead? || r[i].pc[u].CasHead?)
    ensures 1 <= |Recorded(r, ls, i).written| - |Recorded(r, ls, i).delivered| <= r[i].config.capacity - 1
    ensures r[i].pc[t].index == |Recorded(r, ls, i).written| % r[i].config.capacity
    ensures r[i].pc[u].head == |Recorded(r, ls, i).delivered| % r[i].config.capacity
    ensures r[i].pc[t].index != r[i].pc[u].head
    ensures forall x | x in r[i].pc && Storing(r[i].pc[x]) :: x == t
    ensures forall x | x in r[i].pc && Untaken(r[i].pc[x]) :: x == u
  {
    RunInv(r, ls, i);
    RunFifo(r, ls, i);
    var s, g := r[i], Recorded(r, ls, i);
    hide *;
    AccessesApart(s, g, t, u);
  }

  lemma AccessesApart<V>(s: State<V>, g: History<V>, t: nat, u: nat)
    requires Inv(s) && Fifo(s, g) && Ordered(s.config) && t in s.pc && s.pc[t].WriteSlot?
    requires u in s.pc && (s.pc[u].MoveHead? || s.pc[u].CasHead?)
    ensures 1 <= |g.written| - |g.delivered| <= s.config.capacity - 1
    ensures s.pc[t].index == |g.written| % s.config.capacity && s.pc[u].head == |g.delivered| % s.config.capacity
    ensures s.pc[t].index != s.pc[u].head
    ensures forall x | x in s.pc && Storing(s.pc[x]) :: x == t
    ensures forall x | x in s.pc && Untaken(s.pc[x]) :: x == u
  {
    hide Fits, Ledger, Permits, Mutexes, Solo, Unread, Ordered, Worn, Untouched;
    assert LocalsOk(s.moved, s.sh, g, s.pc[t]) && LocalsOk(s.moved, s.sh, g, s.pc[u]);
    Gap(s, |g.written|, |g.delivered|);
    DifferentSlots(|g.delivered|, |g.written|, s.config.capacity);
    forall x | x in s.pc && Storing(s.pc[x]) ensures x == t { OneWriter(s, x, t); }
    forall x | x in s.pc && Untaken(s.pc[x]) ensures x == u { OneReader(s, x, u); }
  }

  predicate Carries<V>(pc: Pc<V>) { pc.ReadCount? || pc.ReadRelease? || pc.ReadUnlock? }

  /** The value a read returns is the one its own compare-and-swap delivered, inside the same call: the message
      written at the position the head had, moved out of once for each compare-and-swap this read lost. */
  lemma {:induction false} ReadReturnsItsDelivery<V>(r: seq<State<V>>, ls: seq<Label<V>>, j: nat, t: nat)
    returns (i: nat)
    requires IsRun(r, ls) && j < |r| && Ordered(r[0].config) && t in r[j].pc && Carries(r[j].pc[t])
    ensures i < j && ls[i] == Step(t) && t in r[i].pc && r[i].pc[t].CasHead?
    ensures Taken(r[i], ls[i]) == [r[j].pc[t].value]
    ensures |Recorded(r, ls, i).delivered| < |Recorded(r, ls, i).written|
    ensures r[j].pc[t].value ==
            Worn(r[0].moved, r[i].pc[t].lost, Recorded(r, ls, i).written[|Recorded(r, ls, i).delivered|])
    ensures forall m | i < m <= j :: t in r[m].pc && Carries(r[m].pc[t])
  {
    hide Apply, Enabled, Carries, Fits, Ordered, Recorded, Taken, Inv, Worn;
    assert j > 0 by { hide *; NotAtStart(r, ls, t); }
    var s, l := r[j - 1], ls[j - 1];
    assert Enabled(s, l) && r[j - 1 + 1] == Apply(s, l);
    RunInv(r, ls, j - 1);
    CarryFrom(s, l, t);
    if Carries(s.pc[t]) {
      i := ReadReturnsItsDelivery(r, ls, j - 1, t);
    } else {
      i := j - 1;
      RunFifo(r, ls, i);
      assert LocalsOk(s.moved, s.sh, Recorded(r, ls, i), s.pc[t]);
    }
  }

  lemma NotAtStart<V>(r: seq<State<V>>, ls: seq<Label<V>>, t: nat)
    requires IsRun(r, ls)
    ensures t in r[0].pc ==> !Carries(r[0].pc[t])
  {
  }

  lemma CarryFrom<V>(s: State<V>, l: Label<V>, t: nat)
    requires Inv(s) && Ordered(s.config) && Enabled(s, l) && t in Apply(s, l).pc && Carries(Apply(s, l).pc[t])
    ensures t in s.pc
    ensures Carries(s.pc[t]) ==> s.pc[t].value == Apply(s, l).pc[t].value
    ensures !Carries(s.pc[t]) ==>
              && l == Step(t) && s.pc[t].CasHead? && Taken(s, l) == [Apply(s, l).pc[t].value]
              && s.pc[t].value == Apply(s, l).pc[t].value
  {
    hide Memory, Ledger, Permits, Mutexes, Solo, SendMemory, ReadMemory, IsFull, IsEmpty, Alarm;
    assert t in s.pc && FitsRead(s.config, s.pc[t]);
  }
}
