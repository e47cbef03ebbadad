/** A call of the monitor queue inside a run, and how it ends. */
module MonitorCalls {
  import opened Roles
  import opened Monitor
  import opened MonitorInvariant
  import opened MonitorProgress

  /** Steps i to j are a call of t, from its beginning on, that has not ended before j. */
  ghost predicate Calling<V>(r: seq<State<V>>, ls: seq<Label<V>>, i: nat, j: nat, t: nat) {
    && IsRun(r, ls) && i < j < |r| && ls[i].Begin? && ls[i].t == t
    && forall m | i < m < j :: t in r[m].pc ==> !r[m].pc[t].Done?
  }

  /** t's message threw in steps i to j. */
  ghost predicate Threw<V>(ls: seq<Label<V>>, i: nat, j: nat, t: nat)
    requires i <= j <= |ls|
  {
    exists m :: i <= m < j && ls[m] == Fail(t)
  }

  lemma ThrewGrows<V>(ls: seq<Label<V>>, i: nat, j: nat, t: nat)
    requires i <= j < |ls|
    ensures Threw(ls, i, j + 1, t) <==> Threw(ls, i, j, t) || ls[j] == Fail(t)
  {
  }

  lemma ThrewNot<V>(ls: seq<Label<V>>, i: nat, t: nat)
    requires i <= |ls|
    ensures !Threw(ls, i, i, t)
  {
  }

  lemma MoverMoves<V>(s: State<V>, l: Label<V>)
    requires Enabled(s, l)
    ensures l.t in s.pc && l.t in Apply(s, l).pc && Apply(s, l).pc[l.t] == Target(s, l)
  {
    hide Memory, Target, RolesAfter;
  }

  /** The last step of a call that has ended is its own. */
  lemma LastStep<V>(r: seq<State<V>>, ls: seq<Label<V>>, i: nat, j: nat, t: nat)
    requires Calling(r, ls, i, j, t) && i < j - 1 && t in r[j - 1].pc && t in r[j].pc && r[j].pc[t].Done?
    ensures Enabled(r[j - 1], ls[j - 1]) && ls[j - 1].t == t && !r[j - 1].pc[t].Done?
    ensures r[j].pc[t] == Target(r[j - 1], ls[j - 1]) && r[j].sh == Memory(r[j - 1], ls[j - 1])
  {
    hide Memory, Target, RolesAfter, Initial;
    assert Enabled(r[j - 1], ls[j - 1]) && r[j - 1 + 1] == Apply(r[j - 1], ls[j - 1]);
  }
}
