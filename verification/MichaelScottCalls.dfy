/** A call of the Michael-Scott queue inside a run, and how it ends. */
module MichaelScottCalls {
  import opened MichaelScott
  import opened MichaelScottInvariant

  /** Steps i to j are a call of t, from its beginning on, that has not ended before j. */
  ghost predicate Calling<V>(r: seq<State<V>>, ls: seq<Label<V>>, i: nat, j: nat, t: nat) {
    && IsRun(r, ls) && i < j < |r| && ls[i].Begin? && ls[i].t == t
    && forall m | i < m < j :: t in r[m].pc ==> !r[m].pc[t].Done?
  }

  /** The last step of a call that has ended is its own. */
  lemma LastStep<V>(r: seq<State<V>>, ls: seq<Label<V>>, i: nat, j: nat, t: nat)
    requires Calling(r, ls, i, j, t) && i < j - 1 && t in r[j - 1].pc && t in r[j].pc && r[j].pc[t].Done?
    ensures Enabled(r[j - 1], ls[j - 1]) && !ls[j - 1].Shut? && ls[j - 1].t == t && !r[j - 1].pc[t].Done?
    ensures r[j] == Apply(r[j - 1], ls[j - 1]) && r[j].pc[t] == Target(r[j - 1], ls[j - 1])
  {
    hide EffectOf, Target, Perform, Initial;
    assert Enabled(r[j - 1], ls[j - 1]) && r[j - 1 + 1] == Apply(r[j - 1], ls[j - 1]);
  }

  lemma CallIsNotDone<V>(s: State<V>, l: Label<V>)
    requires Enabled(s, l) && l.Begin?
    ensures l.t in Apply(s, l).pc && !Apply(s, l).pc[l.t].Done?
  {
  }
}
