/** What the monitor queue guarantees in every run: a bounded FIFO, no lost wake-up, no deadlock of both sides,
    close and drain, and soundness of the deadlock alarm. */
module MonitorTheorems {
  import opened Roles
  import opened Monitor
  import opened MonitorInvariant
  import Tallies

  /** Whenever the mutex is free the counters are exact, and the queue never exceeds its capacity. */
  lemma ReservationsBalance<V>(r: seq<State<V>>, ls: seq<Label<V>>, i: nat)
    requires IsRun(r, ls) && i < |r|
    ensures r[i].sh.mutex == Free ==>
              r[i].sh.free + r[i].sh.used == r[i].config.capacity && r[i].sh.used == |r[i].sh.buffer|
    ensures |r[i].sh.buffer| <= r[i].config.capacity
  {
    RunInv(r, ls, i);
    hide IsRun, ClosersServe, Exclusive;
  }

  /** Every test that a send or a read makes under the mutex decides what a test of the buffer's size would decide.
      The queue of lib/min-heap_queue.hpp, which keeps a size instead of two counters, tests just that. */
  lemma SizeDecides<V>(r: seq<State<V>>, ls: seq<Label<V>>, i: nat, t: nat)
    requires IsRun(r, ls) && i < |r| && t in r[i].pc
    ensures r[i].pc[t].SendWait? || r[i].pc[t].TrySendTest? ==>
              (r[i].sh.free > 0 <==> |r[i].sh.buffer| < r[i].config.capacity)
    ensures r[i].pc[t].ReadWait? || r[i].pc[t].ReadTake? || r[i].pc[t].TryReadTest? ==>
              (r[i].sh.used > 0 <==> r[i].sh.buffer != [])
  {
    RunInv(r, ls, i);
    if Holding(r[i].pc[t]) { HolderBooks(r[i], t); }
    hide IsRun, ClosersServe, Exclusive;
  }

  /** A thread inside the monitor is alone there, and its own next step or a throw is always possible. */
  lemma MonitorIsExclusive<V>(r: seq<State<V>>, ls: seq<Label<V>>, i: nat, t: nat)
    requires IsRun(r, ls) && i < |r| && t in r[i].pc && Holding(r[i].pc[t])
    ensures forall u | u in r[i].pc && Holding(r[i].pc[u]) :: u == t
    ensures Enabled(r[i], Step(t))
  {
    hide IsRun, ClosersServe, Books, Enabled;
    RunInv(r, ls, i);
    HolderRuns(r[i], t);
  }

  lemma HolderRuns<V>(s: State<V>, t: nat)
    requires t in s.pc && Holding(s.pc[t])
    ensures Enabled(s, Step(t))
  {
  }

  /** The queue after a step: appended to by a store that succeeds, shortened by a pop that succeeds. */
  ghost predicate QueueStep<V>(s: State<V>, l: Label<V>, buffer: seq<V>)
    requires l.t in s.pc
  {
    match s.pc[l.t]
    case Store(v) => buffer == if l.Step? then s.sh.buffer + [v] else s.sh.buffer
    case Pop =>
      if l.Step? then s.sh.buffer != [] && buffer == s.sh.buffer[1..] && Target(s, l) == PopDone(s.sh.buffer[0])
      else buffer == s.sh.buffer
    case _ => buffer == s.sh.buffer
  }

  lemma StepIsFifo<V>(s: State<V>, l: Label<V>)
    requires Reserved(s) && Enabled(s, l)
    ensures QueueStep(s, l, Apply(s, l).sh.buffer)
  {
    if Holding(s.pc[l.t]) {
      HolderBooks(s, l.t);
    }
    hide Exclusive, Threads;
  }

  /** Refinement: the buffer changes only by whole appends and removals from the front; a refused, closed or
      throwing call leaves it as it was. */
  lemma RunIsFifo<V>(r: seq<State<V>>, ls: seq<Label<V>>, i: nat)
    requires IsRun(r, ls) && i < |ls|
    ensures ls[i].t in r[i].pc && QueueStep(r[i], ls[i], r[i + 1].sh.buffer)
  {
    hide Reserved, QueueStep, Apply;
    RunInv(r, ls, i);
    assert Enabled(r[i], ls[i]) && r[i + 1] == Apply(r[i], ls[i]);
    StepIsFifo(r[i], ls[i]);
  }

  ghost function Stored<V>(s: State<V>, l: Label<V>): seq<V> {
    if l.Step? && l.t in s.pc && s.pc[l.t].Store? then [s.pc[l.t].v] else []
  }

  ghost function Taken<V>(s: State<V>, l: Label<V>): seq<V> {
    if l.Step? && l.t in s.pc && s.pc[l.t].Pop? && s.sh.buffer != [] then [s.sh.buffer[0]] else []
  }

  /** The values stored and popped by steps lo to hi, in order. */
  ghost function Sends<V>(r: seq<State<V>>, ls: seq<Label<V>>, lo: nat, hi: nat): seq<V>
    requires lo <= hi <= |ls| < |r|
  {
    if lo == hi then [] else Sends(r, ls, lo, hi - 1) + Stored(r[hi - 1], ls[hi - 1])
  }

  ghost function Receipts<V>(r: seq<State<V>>, ls: seq<Label<V>>, lo: nat, hi: nat): seq<V>
    requires lo <= hi <= |ls| < |r|
  {
    if lo == hi then [] else Receipts(r, ls, lo, hi - 1) + Taken(r[hi - 1], ls[hi - 1])
  }

  lemma FifoBalance<V>(s: State<V>, l: Label<V>, buffer: seq<V>)
    requires l.t in s.pc && QueueStep(s, l, buffer)
    ensures s.sh.buffer + Stored(s, l) == Taken(s, l) + buffer
  {
  }

  /** Over any stretch of a run: what was there plus what was stored is what was read plus what is left. */
  lemma {:induction false} NothingLost<V>(r: seq<State<V>>, ls: seq<Label<V>>, lo: nat, hi: nat)
    requires IsRun(r, ls) && lo <= hi <= |ls|
    ensures r[lo].sh.buffer + Sends(r, ls, lo, hi) == Receipts(r, ls, lo, hi) + r[hi].sh.buffer
    decreases hi
  {
    hide QueueStep, Stored, Taken, Apply, Enabled;
    if lo < hi {
      NothingLost(r, ls, lo, hi - 1);
      RunIsFifo(r, ls, hi - 1);
      FifoBalance(r[hi - 1], ls[hi - 1], r[hi].sh.buffer);
      calc {
        r[lo].sh.buffer + Sends(r, ls, lo, hi);
        (r[lo].sh.buffer + Sends(r, ls, lo, hi - 1)) + Stored(r[hi - 1], ls[hi - 1]);
        Receipts(r, ls, lo, hi - 1) + (r[hi - 1].sh.buffer + Stored(r[hi - 1], ls[hi - 1]));
        Receipts(r, ls, lo, hi) + r[hi].sh.buffer;
      }
    } else {
      assert r[lo].sh.buffer + Sends(r, ls, lo, hi) == r[lo].sh.buffer;
    }
  }

  lemma PopSeesMessage<V>(s: State<V>, t: nat)
    requires Reserved(s) && t in s.pc && s.pc[t].Pop?
    ensures s.sh.buffer != []
  {
    HolderBooks(s, t);
  }

  predicate Carries<V>(pc: Pc<V>) { pc.PopDone? || pc.NotifyRead? }

  /** The value a read returns is the one its own pop took from the front, inside the same call. */
  lemma {:induction false} ReadReturnsItsPop<V>(r: seq<State<V>>, ls: seq<Label<V>>, j: nat, t: nat) returns (i: nat)
    requires IsRun(r, ls) && j < |r| && t in r[j].pc && Carries(r[j].pc[t])
    ensures i < j && ls[i] == Step(t) && t in r[i].pc && r[i].pc[t].Pop?
    ensures r[i].sh.buffer != [] && r[j].pc[t].value == r[i].sh.buffer[0]
    ensures forall m | i < m <= j :: t in r[m].pc && Carries(r[m].pc[t])
  {
    hide Apply, Enabled, QueueStep, Carries, Reserved;
    assert j > 0 by { hide *; NotAtStart(r, ls, t); }
    var s, l := r[j - 1], ls[j - 1];
    assert Enabled(s, l) && r[j - 1 + 1] == Apply(s, l);
    CarryFrom(s, l, t);
    if Carries(s.pc[t]) {
      i := ReadReturnsItsPop(r, ls, j - 1, t);
    } else {
      RunInv(r, ls, j - 1);
      StepIsFifo(s, l);
      PopTakesFront(s, l);
      i := j - 1;
    }
  }

  lemma NotAtStart<V>(r: seq<State<V>>, ls: seq<Label<V>>, t: nat)
    requires IsRun(r, ls)
    ensures t in r[0].pc ==> !Carries(r[0].pc[t])
  {
  }

  lemma CarryFrom<V>(s: State<V>, l: Label<V>, t: nat)
    requires Enabled(s, l) && t in Apply(s, l).pc && Carries(Apply(s, l).pc[t])
    ensures t in s.pc
    ensures Carries(s.pc[t]) ==> s.pc[t].value == Apply(s, l).pc[t].value
    ensures !Carries(s.pc[t]) ==> l == Step(t) && s.pc[t].Pop? && Apply(s, l).pc[t] == Target(s, l)
  {
  }

  lemma PopTakesFront<V>(s: State<V>, l: Label<V>)
    requires Enabled(s, l) && l.Step? && s.pc[l.t].Pop? && QueueStep(s, l, Apply(s, l).sh.buffer)
    ensures s.sh.buffer != [] && Target(s, l) == PopDone(s.sh.buffer[0])
  {
    hide Apply, Target, Enabled;
  }
}
