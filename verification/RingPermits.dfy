/** What the permits guarantee in every run of every category: conservation, exact counters at rest, when a try
    form cancels, and progress. */
module RingPermits {
  import opened Counters
  import opened Roles
  import opened Ring
  import opened RingInvariant
  import Tallies

  /** Bounded ring: free permits, occupied permits and live guards add up to the capacity in every state. */
  lemma PermitsAreConserved<V>(r: seq<State<V>>, ls: seq<Label<V>>, i: nat)
    requires IsRun(r, ls) && i < |r| && r[i].config.overflow.Bounded?
    ensures r[i].sh.free >= 0 && r[i].sh.occupied >= 0
    ensures r[i].sh.free + r[i].sh.occupied
              + Tallies.Count(r[i].pc, SendGuarded<V>) + Tallies.Count(r[i].pc, ReadGuarded<V>) == r[i].config.capacity
  {
    hide IsRun, Fits, Ledger, Mutexes, Solo;
    RunInv(r, ls, i);
  }

  /** Both policies, all categories: with no call in flight Size() is the number of occupied permits, and a
      bounded ring has given every permit back. */
  lemma RestIsExact<V>(r: seq<State<V>>, ls: seq<Label<V>>, i: nat)
    requires IsRun(r, ls) && i < |r| && forall t | t in r[i].pc :: r[i].pc[t].Done?
    ensures r[i].sh.count == r[i].sh.occupied >= 0
    ensures r[i].config.overflow.Bounded? ==> r[i].sh.free + r[i].sh.count == r[i].config.capacity
    ensures r[i].sh.sendMutex == Free && r[i].sh.readMutex == Free
  {
    hide IsRun, Fits, Solo;
    RunInv(r, ls, i);
    Tallies.Zero(r[i].pc, Uncounted<V>);
    Tallies.Zero(r[i].pc, Unsubtracted<V>);
    Tallies.Zero(r[i].pc, SendGuarded<V>);
    Tallies.Zero(r[i].pc, ReadGuarded<V>);
  }

  lemma CountRange<V>(s: State<V>)
    requires Ledger(s) && Permits(s)
    ensures s.sh.count >= -|s.pc|
    ensures s.config.overflow.Bounded? ==> s.sh.count <= s.config.capacity - Tallies.Count(s.pc, SendGuarded<V>)
  {
    Tallies.Within(s.pc, Unsubtracted<V>, ReadGuarded<V>);
    Tallies.AtMostAll(s.pc, Uncounted<V>);
  }

  /** A try-send of the bounded ring that holds a permit is refused exactly when the counter has run below zero:
      a message was read before its sender counted it, and the comparison sees the wrapped value. */
  lemma TrySendCancelsExactly<V>(r: seq<State<V>>, ls: seq<Label<V>>, i: nat, t: nat)
    requires IsRun(r, ls) && i < |r| && t in r[i].pc && r[i].pc[t].SendCheck?
    requires |r[i].pc| <= SEMAPHORE_MAX
    ensures Target(r[i], Step(t)).LoadTail? <==> r[i].sh.count >= 0
    ensures r[i].sh.count < 0 <==>
            Tallies.Count(r[i].pc, Uncounted<V>) > r[i].sh.occupied + Tallies.Count(r[i].pc, Unsubtracted<V>)
    ensures SingleProducer(r[i].config.category) ==> r[i].sh.count >= 0
  {
    hide IsRun, Mutexes, Enabled, SizeT, Target;
    var s := r[i];
    RunInv(r, ls, i);
    assert s.config.overflow.Bounded? && FitsSend(s.config, s.pc[t]);
    CountRange(s);
    Tallies.NonZero(s.pc, t, SendGuarded<V>);
    Wraps(s.sh.count, s.config.capacity);
    SecondLook(s, t);
    if SingleProducer(s.config.category) {
      Tallies.Zero(s.pc, Uncounted<V>);
    }
  }

  lemma SecondLook<V>(s: State<V>, t: nat)
    requires t in s.pc && s.pc[t].SendCheck?
    ensures Target(s, Step(t)).LoadTail? <==> SizeT(s.sh.count) < s.config.capacity
  {
    hide SizeT;
  }

  lemma Wraps(count: int, capacity: Capacity)
    requires -(SEMAPHORE_MAX as int) <= count < capacity
    ensures SizeT(count) >= capacity <==> count < 0
  {
  }

  lemma ZeroShows(count: int)
    requires -(SEMAPHORE_MAX as int) <= count <= 2 * SEMAPHORE_MAX
    ensures SizeT(count) == 0 <==> count == 0
  {
  }

  /** Either policy: a try-read that holds a permit reports an empty queue exactly when every publication it could
      see is still to be counted; with the counter it sees, at least one sender is then between its two updates. */
  lemma TryReadCancelsExactly<V>(r: seq<State<V>>, ls: seq<Label<V>>, i: nat, t: nat)
    requires IsRun(r, ls) && i < |r| && t in r[i].pc && r[i].pc[t].ReadCheck?
    requires r[i].sh.occupied <= SEMAPHORE_MAX && |r[i].pc| <= SEMAPHORE_MAX
    ensures Target(r[i], Step(t)).ReadCancelRelease? <==>
            Tallies.Count(r[i].pc, Uncounted<V>) == r[i].sh.occupied + Tallies.Count(r[i].pc, Unsubtracted<V>)
    ensures Target(r[i], Step(t)).ReadCancelRelease? ==> Tallies.Count(r[i].pc, Uncounted<V>) >= 1
  {
    hide IsRun, Fits, Mutexes, Solo, Enabled, SizeT, Uncounted, SendNext, SendMemory, ReadMemory;
    var s := r[i];
    RunInv(r, ls, i);
    CountRange(s);
    Tallies.NonZero(s.pc, t, Unsubtracted<V>);
    Tallies.AtMostAll(s.pc, Unsubtracted<V>);
    ZeroShows(s.sh.count);
  }

  /** No thread can take a step; what is left is new calls. */
  ghost predicate Stuck<V>(s: State<V>) {
    forall t | t in s.pc :: !Enabled(s, Step(t))
  }

  lemma StuckAt<V>(s: State<V>, t: nat)
    requires Stuck(s) && t in s.pc
    ensures !s.pc[t].Done? ==> !Available(s.sh, s.pc[t])
    ensures Sending(s.pc[t]) ==> s.pc[t].SendAcquire? || s.pc[t].SendLock?
    ensures Reading(s.pc[t]) ==> s.pc[t].ReadAcquire? || s.pc[t].ReadLock?
  {
    assert !Enabled(s, Step(t));
  }

  /** Nobody waits for a sending mutex for ever: its holder can always step. */
  lemma StuckSender<V>(s: State<V>, t: nat)
    requires Stuck(s) && Mutexes(s) && t in s.pc && Sending(s.pc[t])
    ensures s.pc[t].SendAcquire? && s.sh.free <= 0
  {
    StuckAt(s, t);
    if s.sh.sendMutex.HeldBy? {
      SenderRuns(s, s.sh.sendMutex.t);
    }
  }

  lemma SenderRuns<V>(s: State<V>, u: nat)
    requires u in s.pc && SendLocked(s.config, s.pc[u])
    ensures Enabled(s, Step(u))
  {
  }

  /** A reader waits for the reading mutex only while its holder waits for a message. */
  lemma StuckReader<V>(s: State<V>, t: nat)
    requires Stuck(s) && Mutexes(s) && t in s.pc && Reading(s.pc[t])
    ensures s.sh.occupied <= 0 && (s.pc[t].ReadAcquire? || s.pc[t].ReadLock?)
  {
    StuckAt(s, t);
    if s.pc[t].ReadLock? {
      var u := s.sh.readMutex.t;
      StuckAt(s, u);
      assert ReadLocked(s.config, s.pc[u]);
    }
  }

  /** Progress: when no thread can step, a pending send means that the ring is full and a pending read that it
      is empty, so a send and a read are never both stuck; a send that drops is never stuck. */
  lemma StuckMeansFullOrEmpty<V>(r: seq<State<V>>, ls: seq<Label<V>>, i: nat, t: nat)
    requires IsRun(r, ls) && i < |r| && Stuck(r[i]) && t in r[i].pc
    ensures Sending(r[i].pc[t]) ==> r[i].config.overflow.Bounded? && r[i].sh.occupied == r[i].config.capacity
    ensures Reading(r[i].pc[t]) ==> r[i].sh.occupied == 0
    ensures r[i].sh.count == r[i].sh.occupied
    ensures Reading(r[i].pc[t]) && r[i].config.overflow.Bounded? ==> r[i].sh.free == r[i].config.capacity
  {
    hide IsRun, Stuck, Solo, Mutexes, Sending, Reading, Permits, Fits;
    var s := r[i];
    RunInv(r, ls, i);
    forall u | u in s.pc
      ensures !SendGuarded(s.pc[u]) && !ReadGuarded(s.pc[u]) && !Uncounted(s.pc[u]) && !Unsubtracted(s.pc[u])
    {
      StuckUnguarded(s, u);
    }
    Tallies.Zero(s.pc, Uncounted<V>);
    Tallies.Zero(s.pc, Unsubtracted<V>);
    if Sending(s.pc[t]) {
      StuckSender(s, t);
      SendersFit(s, t);
    }
    if Reading(s.pc[t]) { StuckReader(s, t); }
    Tallies.Zero(s.pc, SendGuarded<V>);
    Tallies.Zero(s.pc, ReadGuarded<V>);
    PermitsSay(s);
  }

  lemma StuckUnguarded<V>(s: State<V>, u: nat)
    requires Stuck(s) && Mutexes(s) && u in s.pc
    ensures !SendGuarded(s.pc[u]) && !ReadGuarded(s.pc[u]) && !Uncounted(s.pc[u]) && !Unsubtracted(s.pc[u])
  {
    hide Stuck, Mutexes;
    if Sending(s.pc[u]) {
      StuckSender(s, u);
    } else if Reading(s.pc[u]) {
      StuckReader(s, u);
    }
  }

  lemma SendersFit<V>(s: State<V>, t: nat)
    requires Fits(s) && t in s.pc && s.pc[t].SendAcquire?
    ensures s.config.overflow.Bounded?
  {
    assert FitsSend(s.config, s.pc[t]);
  }

  lemma PermitsSay<V>(s: State<V>)
    requires Permits(s)
    ensures s.sh.free >= 0 && s.sh.occupied >= 0
    ensures s.config.overflow.Bounded? ==>
              s.sh.free + s.sh.occupied + Tallies.Count(s.pc, SendGuarded<V>) + Tallies.Count(s.pc, ReadGuarded<V>)
                == s.config.capacity
  {
  }

  /** Deadlock freedom: while a blocking send and a blocking read are both pending, some thread can step. */
  lemma SendAndReadNeverBothStuck<V>(r: seq<State<V>>, ls: seq<Label<V>>, i: nat, t: nat, u: nat)
    requires IsRun(r, ls) && i < |r|
    requires t in r[i].pc && Sending(r[i].pc[t]) && u in r[i].pc && Reading(r[i].pc[u])
    ensures exists x :: x in r[i].pc && Enabled(r[i], Step(x))
  {
    hide IsRun, Enabled, Sending, Reading;
    if Stuck(r[i]) {
      StuckMeansFullOrEmpty(r, ls, i, t);
      StuckMeansFullOrEmpty(r, ls, i, u);
      assert false;
    }
  }
}
