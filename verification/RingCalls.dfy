/** A call of a circular queue inside a run, and what it can meet on its way. */
module RingCalls {
  import opened Roles
  import opened Ring
  import opened RingInvariant

  /** Steps i to j are a call of t, from its beginning on, that has not ended before j. */
  ghost predicate Calling<V>(r: seq<State<V>>, ls: seq<Label<V>>, i: nat, j: nat, t: nat) {
    && IsRun(r, ls) && i < j < |r| && ls[i].Begin? && ls[i].t == t
    && forall m | i < m < j :: t in r[m].pc ==> !r[m].pc[t].Done?
  }

  /** One of t's tries at a permit or at a mutex fails: it is not there, or the try fails without cause. */
  predicate TryFails<V>(s: State<V>, l: Label<V>, t: nat) {
    && l.t == t && t in s.pc && !l.Begin? && !Succeeds(s, l)
    && (s.pc[t].SendAcquire? || s.pc[t].SendLock? || s.pc[t].ReadLock? || s.pc[t].ReadAcquire?)
  }

  /** t had such a failure in steps i to j. */
  ghost predicate HadFailure<V>(r: seq<State<V>>, ls: seq<Label<V>>, i: nat, j: nat, t: nat)
    requires i <= j <= |ls| < |r|
  {
    exists m :: i <= m < j && TryFails(r[m], ls[m], t)
  }

  /** The counter showed a full ring, or an empty one, in one of the states i to j. */
  ghost predicate SawFull<V>(r: seq<State<V>>, i: nat, j: nat)
    requires i <= j <= |r|
  {
    exists m :: i <= m < j && IsFull(r[m].config, r[m].sh)
  }

  ghost predicate SawEmpty<V>(r: seq<State<V>>, i: nat, j: nat)
    requires i <= j <= |r|
  {
    exists m :: i <= m < j && IsEmpty(r[m].sh)
  }

  lemma RunFits<V>(r: seq<State<V>>, ls: seq<Label<V>>, i: nat, t: nat)
    requires IsRun(r, ls) && i < |r| && t in r[i].pc
    ensures FitsShared(r[i].config, r[i].sh) && FitsSend(r[i].config, r[i].pc[t]) && FitsRead(r[i].config, r[i].pc[t])
  {
    hide IsRun, FitsSend, FitsRead, FitsShared, Ledger, Permits, Mutexes, Solo;
    RunInv(r, ls, i);
  }

  /** The last step of a call that has ended is its own. */
  lemma LastStep<V>(r: seq<State<V>>, ls: seq<Label<V>>, i: nat, j: nat, t: nat)
    requires Calling(r, ls, i, j, t) && i < j - 1 && t in r[j - 1].pc && t in r[j].pc && r[j].pc[t].Done?
    ensures Enabled(r[j - 1], ls[j - 1]) && ls[j - 1].t == t && !r[j - 1].pc[t].Done?
    ensures r[j].pc[t] == Target(r[j - 1], ls[j - 1])
  {
    hide Memory, Target, RolesAfter, Initial;
    assert Enabled(r[j - 1], ls[j - 1]) && r[j - 1 + 1] == Apply(r[j - 1], ls[j - 1]);
  }
}
