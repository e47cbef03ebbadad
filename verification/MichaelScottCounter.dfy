/** The counter current_size_ under one reader at a time: it never drops below zero. */
module MichaelScottCounter {
  import opened Counters
  import opened MichaelScott
  import opened MichaelScottInvariant
  import opened MichaelScottFifo
  import opened MichaelScottSafety
  import opened MichaelScottProgress
  import Tallies

  predicate ReadsNow<V>(pc: Pc<V>) {
    || pc.ReadSize? || pc.ReadClosed? || pc.ReadRecheckClosed? || pc.ReadRecheckSize? || pc.TryReadSize?
    || pc.LoadHead? || pc.LoadLast? || pc.LoadSecond? || pc.CheckHead? || pc.HelpPop? || pc.CasHead? || Unsubtracted(pc)
  }

  /** A single consumer: at most one read is in progress. */
  ghost predicate OneReader<V>(s: State<V>) {
    forall t, u | t in s.pc && u in s.pc && ReadsNow(s.pc[t]) && ReadsNow(s.pc[u]) :: t == u
  }

  /** A read that was let in and has not removed its message. */
  predicate LetIn<V>(pc: Pc<V>) {
    pc.LoadHead? || pc.LoadLast? || pc.LoadSecond? || pc.CheckHead? || pc.HelpPop? || pc.CasHead?
  }

  /** The counted messages that are in the list. */
  ghost function Counted<V>(s: State<V>): int { |Contents(s)| - Tallies.Count(s.pc, Uncounted<V>) }

  /** Whoever was let in has a counted message to take. */
  ghost predicate Covered<V>(s: State<V>) {
    && Counted(s) >= 0
    && forall t | t in s.pc :: ReadCovered(s.closed, Counted(s), s.pc[t])
  }

  predicate ReadCovered<V>(closed: bool, counted: int, pc: Pc<V>) {
    (LetIn(pc) ==> counted >= 1) && (pc.ReadRecheckClosed? ==> closed || counted >= 1)
  }

  /** What one step does to the reader and to the counted messages. */
  lemma MoverCovered<V>(s: State<V>, l: Label<V>, counted: int)
    requires Enabled(s, l) && !l.Shut? && ReadCovered(s.closed, counted, s.pc[l.t])
    requires ReadsNow(s.pc[l.t]) && !Unsubtracted(s.pc[l.t]) ==> s.size == counted >= 0
    ensures var e, q := EffectOf(s, l), Target(s, l);
            && (e.Unlinks? ==> counted >= 1 && !LetIn(q) && !q.ReadRecheckClosed? && ReadsNow(s.pc[l.t]))
            && (!e.Unlinks? ==> ReadCovered(s.closed, counted, q))
  {
  }

  lemma StepCounted<V>(s: State<V>, g: Trail, l: Label<V>)
    requires Inv(s, g) && Enabled(s, l)
    ensures Counted(Apply(s, l)) ==
            Counted(s) - Tallies.Bit(EffectOf(s, l).Unlinks?) + Tallies.Bit(EffectOf(s, l) == Counts(1))
    ensures s.closed ==> Apply(s, l).closed
  {
    hide Contents, Inv, Uncounted;
    StepLength(s, g, l);
    if !l.Shut? {
      StepPhase(s, l);
      Tallies.Move(s.pc, l.t, Target(s, l), Uncounted<V>);
    }
    hide Target;
  }

  /** While one thread reads and has removed nothing, the counter is the counted messages. */
  lemma ReaderSeesCounted<V>(s: State<V>, g: Trail, t: nat)
    requires Inv(s, g) && OneReader(s) && t in s.pc && ReadsNow(s.pc[t]) && !Unsubtracted(s.pc[t])
    ensures s.size == Counted(s)
  {
    hide Shape, Owners, PcOk, Contents;
    ChainIsOrder(s, g);
    Tallies.Zero(s.pc, Unsubtracted<V>);
  }

  lemma StepCovered<V>(s: State<V>, g: Trail, l: Label<V>)
    requires Inv(s, g) && OneReader(s) && Covered(s) && Enabled(s, l)
    ensures Covered(Apply(s, l))
  {
    hide Inv, Counted, ReadsNow, Unsubtracted, LetIn, Target, EffectOf, Perform;
    StepCounted(s, g, l);
    var s', n := Apply(s, l), Counted(s);
    ThreadsAfter(s, l);
    if !l.Shut? {
      if ReadsNow(s.pc[l.t]) && !Unsubtracted(s.pc[l.t]) { ReaderSeesCounted(s, g, l.t); }
      MoverCovered(s, l, n);
    }
    hide Apply, Enabled;
    forall u | u in s'.pc ensures ReadCovered(s'.closed, Counted(s'), s'.pc[u]) {
      assert ReadCovered(s.closed, n, s.pc[u]);
      OnlyReadersAreCovered(s.pc[u]);
    }
  }

  lemma ThreadsAfter<V>(s: State<V>, l: Label<V>)
    requires Enabled(s, l)
    ensures Apply(s, l).pc == if l.Shut? then s.pc else s.pc[l.t := Target(s, l)]
    ensures l.Shut? ==> !EffectOf(s, l).Unlinks?
  {
  }

  lemma OnlyReadersAreCovered<V>(pc: Pc<V>)
    ensures LetIn(pc) || pc.ReadRecheckClosed? ==> ReadsNow(pc)
  {
  }

  lemma StartsCovered<V>(s: State<V>)
    requires Initial(s)
    ensures Covered(s)
  {
    StartsEmpty(s);
    Tallies.Zero(s.pc, Uncounted<V>);
  }

  lemma {:induction false} RunCovered<V>(r: seq<State<V>>, ls: seq<Label<V>>, i: nat)
    requires IsRun(r, ls) && i < |r| && forall j | 0 <= j < i :: OneReader(r[j])
    ensures Covered(r[i])
  {
    hide Inv, Enabled, Apply, Covered, OneReader, Initial;
    if i == 0 {
      StartsCovered(r[0]);
    } else {
      RunCovered(r, ls, i - 1);
      var g := AtState(r, ls, i - 1);
      assert Enabled(r[i - 1], ls[i - 1]) && r[i - 1 + 1] == Apply(r[i - 1], ls[i - 1]);
      StepCovered(r[i - 1], g, ls[i - 1]);
    }
  }

  /** With one reader at a time current_size_ never drops below zero, and Size() shows it as it is; every read
      that was let in finds a message. */
  lemma OneReaderNeverWraps<V>(r: seq<State<V>>, ls: seq<Label<V>>, i: nat)
    requires IsRun(r, ls) && i < |r| && forall j | 0 <= j < i :: OneReader(r[j])
    ensures r[i].size >= 0 && (r[i].size < SIZE_T_RANGE ==> SizeT(r[i].size) == r[i].size)
    ensures forall t | t in r[i].pc && LetIn(r[i].pc[t]) :: Contents(r[i]) != []
  {
    hide IsRun, Contents;
    RunCovered(r, ls, i);
    SizeLaw(r, ls, i);
  }
}
