/** A read of the Michael-Scott queue that was let in while the list is empty: PopMessage never returns until a
    message is linked. */
module MichaelScottSpin {
  import opened MichaelScott
  import opened MichaelScottInvariant
  import opened MichaelScottFifo
  import opened MichaelScottSafety

  /** Inside PopMessage, before its removal. */
  predicate Popping<V>(pc: Pc<V>) {
    && (pc.LoadHead? || pc.LoadLast? || pc.LoadSecond? || pc.CheckHead? || pc.HelpPop? || pc.CasHead?)
    && !pc.once
  }

  lemma PoppingStays<V>(s: State<V>, l: Label<V>, t: nat)
    requires Enabled(s, l) && t in s.pc && Popping(s.pc[t]) && !EffectOf(s, l).Unlinks?
    ensures t in Apply(s, l).pc && Popping(Apply(s, l).pc[t])
  {
    hide Perform;
  }

  lemma NothingToUnlink<V>(s: State<V>, g: Trail, l: Label<V>)
    requires Inv(s, g) && Enabled(s, l) && Contents(s) == []
    ensures !EffectOf(s, l).Unlinks?
  {
    hide Inv, Contents, EffectOf, Apply;
    StepIsFifo(s, g, l);
  }

  /** Whatever the other threads do, a read in PopMessage does not leave it while the list is empty. */
  lemma {:induction false} EmptyListHoldsReader<V>(r: seq<State<V>>, ls: seq<Label<V>>, i: nat, j: nat, t: nat)
    requires IsRun(r, ls) && i <= j < |r| && t in r[i].pc && Popping(r[i].pc[t])
    requires forall m | i <= m < j :: Contents(r[m]) == []
    ensures t in r[j].pc && Popping(r[j].pc[t])
    decreases j
  {
    hide Inv, Contents, EffectOf, Apply, Enabled, Popping;
    if i < j {
      EmptyListHoldsReader(r, ls, i, j - 1, t);
      var s, l := r[j - 1], ls[j - 1];
      var g := AtState(r, ls, j - 1);
      assert Enabled(s, l) && r[j - 1 + 1] == Apply(s, l);
      NothingToUnlink(s, g, l);
      PoppingStays(s, l, t);
    }
  }

  /** Where t is after n steps of a pass that finds nothing. */
  function Lap<V>(s: State<V>, n: nat): Pc<V> {
    if n % 4 == 0 then LoadHead(false)
    else if n % 4 == 1 then LoadLast(false, s.head)
    else if n % 4 == 2 then LoadSecond(false, s.head, s.tail)
    else CheckHead(false, s.head, s.tail, Null)
  }

  /** The only step that t can make there is the next one. */
  lemma LapStep<V>(s: State<V>, t: nat, n: nat, l: Label<V>)
    requires t in s.pc && s.head == s.tail && NextAt(s, s.head).Null?
    requires !l.Shut? && l.t == t && Enabled(s.(pc := s.pc[t := Lap(s, n)]), l)
    ensures Apply(s.(pc := s.pc[t := Lap(s, n)]), l) == s.(pc := s.pc[t := Lap(s, n + 1)])
  {
    assert s.pc[t := Lap(s, n)][t := Lap(s, n + 1)] == s.pc[t := Lap(s, n + 1)];
  }

  lemma LapHome<V>(s: State<V>, t: nat, n: nat)
    requires t in s.pc && s.pc[t] == LoadHead(false) && n % 4 == 0
    ensures s.(pc := s.pc[t := Lap(s, n)]) == s
  {
    assert s.pc[t := s.pc[t]] == s.pc;
  }

  lemma EmptyMeansNull<V>(s: State<V>, g: Trail)
    requires Shape(s, g) && Contents(s) == []
    ensures s.head == s.tail && NextAt(s, s.head).Null?
  {
    hide Contents;
    ChainIsOrder(s, g);
    LinkOf(s, g, s.head);
  }

  /** Let in while the list is empty and left alone, a read goes round for ever: after any number of its steps no
      field has changed and it is where the remainder by four says, so every fourth step ends in the very state
      that it began in. */
  lemma {:induction false} SpinsForEver<V>(r: seq<State<V>>, ls: seq<Label<V>>, i: nat, j: nat, t: nat)
    requires IsRun(r, ls) && i <= j < |r| && t in r[i].pc && r[i].pc[t] == LoadHead(false) && Contents(r[i]) == []
    requires forall m | i <= m < j :: !ls[m].Shut? && ls[m].t == t
    ensures r[j] == r[i].(pc := r[i].pc[t := Lap(r[i], j - i)])
    ensures (j - i) % 4 == 0 ==> r[j] == r[i]
    decreases j
  {
    hide Inv, Shape, Contents, Apply, Enabled, Initial, Lap, NextAt;
    var s := r[i];
    if i < j {
      SpinsForEver(r, ls, i, j - 1, t);
      var g := AtState(r, ls, i);
      InvParts(s, g);
      EmptyMeansNull(s, g);
      assert Enabled(r[j - 1], ls[j - 1]) && r[j - 1 + 1] == Apply(r[j - 1], ls[j - 1]);
      LapStep(s, t, j - 1 - i, ls[j - 1]);
    }
    if (j - i) % 4 == 0 { LapHome(s, t, j - i); }
  }
}
