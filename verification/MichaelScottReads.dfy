/** What a whole read of the Michael-Scott queue removes, and how it ends. */
module MichaelScottReads {
  import opened Counters
  import opened MichaelScott
  import opened MichaelScottInvariant
  import opened MichaelScottFifo
  import opened MichaelScottSafety
  import opened MichaelScottProgress
  import opened MichaelScottCalls

  predicate IsRead<V>(op: Op<V>) { op.Read? || op.TryRead? || op.TryDequeue? }

  /** Where a read can be when it has removed these values. Only TryDequeue makes a single pass. */
  ghost predicate ReadAt<V>(s: State<V>, pc: Pc<V>, op: Op<V>, removed: seq<V>) {
    match pc
    case ReadSize => op.Read? && removed == []
    case ReadClosed => op.Read? && removed == []
    case ReadRecheckClosed => op.Read? && removed == []
    case ReadRecheckSize => op.Read? && removed == [] && s.closed
    case TryReadSize(once) => !op.Read? && once == op.TryDequeue? && removed == []
    case LoadHead(once) => once == op.TryDequeue? && removed == []
    case LoadLast(once, _) => once == op.TryDequeue? && removed == []
    case LoadSecond(once, _, _) => once == op.TryDequeue? && removed == []
    case CheckHead(once, _, _, _) => once == op.TryDequeue? && removed == []
    case HelpPop(once, _, _) => once == op.TryDequeue? && removed == []
    case CasHead(once, _, _) => once == op.TryDequeue? && removed == []
    case Take(_, succ) => succ in s.nodes && removed == [s.nodes[succ].value]
    case Retire(_, value) => removed == [value]
    case CountRead(value) => removed == [value]
    case Done(Got(value)) => removed == [value]
    case Done(Nothing) => !op.Read? && removed == []
    case Done(ThrewClosed) => op.Read? && removed == []
    case _ => false
  }

  /** What t removes in steps lo to hi. */
  ghost function RemovedBy<V>(r: seq<State<V>>, ls: seq<Label<V>>, t: nat, lo: nat, hi: nat): seq<V>
    requires IsRun(r, ls) && lo <= hi <= |ls|
  {
    if lo == hi then []
    else
      RemovedBy(r, ls, t, lo, hi - 1) +
      (if ls[hi - 1].Shut? || ls[hi - 1].t != t then [] else ReceivedBy(r[hi - 1], EffectOf(r[hi - 1], ls[hi - 1])))
  }

  lemma BeginsRead<V>(s: State<V>, l: Label<V>)
    requires Enabled(s, l) && l.Begin? && IsRead(l.op)
    ensures l.t in Apply(s, l).pc && ReadAt(Apply(s, l), Apply(s, l).pc[l.t], l.op, [])
    ensures ReceivedBy(s, EffectOf(s, l)) == []
  {
  }

  lemma ReadMoves<V>(s: State<V>, l: Label<V>, op: Op<V>, removed: seq<V>)
    requires IsRead(op) && Enabled(s, l) && !l.Shut? && !s.pc[l.t].Done? && ReadAt(s, s.pc[l.t], op, removed)
    requires EffectOf(s, l).Unlinks? ==> EffectOf(s, l).succ in s.nodes
    ensures ReadAt(Apply(s, l), Apply(s, l).pc[l.t], op, removed + ReceivedBy(s, EffectOf(s, l)))
  {
    hide StoreTarget;
  }

  /** What a read sees in the step that ends it without a message. */
  lemma ReadSees<V>(s: State<V>, l: Label<V>, op: Op<V>, removed: seq<V>)
    requires IsRead(op) && Enabled(s, l) && !l.Shut? && !s.pc[l.t].Done? && ReadAt(s, s.pc[l.t], op, removed)
    ensures Target(s, l) == Done(ThrewClosed) ==> s.closed && SizeT(s.size) == 0
    ensures Target(s, l) == Done(Nothing) ==>
              || SizeT(s.size) == 0
              || (op.TryDequeue? && (SawEmpty(s.pc[l.t]) || PopFails(s, l, l.t) == 1))
  {
    hide StoreTarget;
  }

  lemma OthersLeaveRead<V>(s: State<V>, g: Trail, l: Label<V>, t: nat, op: Op<V>, removed: seq<V>)
    requires Inv(s, g) && Enabled(s, l) && (l.Shut? || l.t != t) && t in s.pc && ReadAt(s, s.pc[t], op, removed)
    ensures t in Apply(s, l).pc && ReadAt(Apply(s, l), Apply(s, l).pc[t], op, removed)
  {
    hide Inv, EffectOf, Target;
    assert Apply(s, l).pc[t] == s.pc[t];
    if s.pc[t].Take? { TakenStays(s, g, l, t); }
  }

  lemma UnlinksAllocated<V>(s: State<V>, g: Trail, l: Label<V>)
    requires Inv(s, g) && Enabled(s, l) && EffectOf(s, l).Unlinks?
    ensures EffectOf(s, l).succ in s.nodes
  {
    hide Inv, EffectOf, Apply, Contents;
    StepIsFifo(s, g, l);
  }

  lemma {:induction false} ReadPath<V>(r: seq<State<V>>, ls: seq<Label<V>>, i: nat, j: nat, t: nat)
    requires Calling(r, ls, i, j, t) && IsRead(ls[i].op)
    ensures t in r[j].pc && ReadAt(r[j], r[j].pc[t], ls[i].op, RemovedBy(r, ls, t, i, j))
    decreases j
  {
    hide Inv, Apply, Enabled, EffectOf, ReadAt, ReceivedBy, Initial, IsRead;
    var s, l := r[j - 1], ls[j - 1];
    assert Enabled(s, l) && r[j - 1 + 1] == Apply(s, l);
    if i == j - 1 {
      BeginsRead(s, l);
      assert RemovedBy(r, ls, t, i, j) == RemovedBy(r, ls, t, i, i) + [];
    } else {
      ReadPath(r, ls, i, j - 1, t);
      var g := AtState(r, ls, j - 1);
      var removed := RemovedBy(r, ls, t, i, j - 1);
      if l.Shut? || l.t != t {
        assert removed + [] == removed;
        OthersLeaveRead(s, g, l, t, ls[i].op, removed);
      } else {
        if EffectOf(s, l).Unlinks? { UnlinksAllocated(s, g, l); }
        SameThreads(s, l);
        ReadMoves(s, l, ls[i].op, removed);
        assert RemovedBy(r, ls, t, i, j) == removed + ReceivedBy(s, EffectOf(s, l));
      }
    }
  }

  lemma ReadEndsSeeing<V>(r: seq<State<V>>, ls: seq<Label<V>>, i: nat, j: nat, t: nat)
    requires Calling(r, ls, i, j, t) && IsRead(ls[i].op) && t in r[j].pc && r[j].pc[t].Done?
    ensures t in r[j - 1].pc
    ensures r[j].pc[t].result == ThrewClosed ==> r[j - 1].closed && SizeT(r[j - 1].size) == 0
    ensures r[j].pc[t].result == Nothing ==>
              || SizeT(r[j - 1].size) == 0
              || (ls[i].op.TryDequeue? && (SawEmpty(r[j - 1].pc[t]) || PopFails(r[j - 1], ls[j - 1], t) == 1))
  {
    hide Apply, EffectOf, Initial, SizeT, Target, ReadAt, PopFails, SawEmpty;
    if i == j - 1 {
      assert Enabled(r[i], ls[i]) && r[i + 1] == Apply(r[i], ls[i]);
      CallIsNotDone(r[i], ls[i]);
    } else {
      ReadPath(r, ls, i, j - 1, t);
      LastStep(r, ls, i, j, t);
      ReadSees(r[j - 1], ls[j - 1], ls[i].op, RemovedBy(r, ls, t, i, j - 1));
    }
  }

  /** A whole call of Read, TryRead or TryDequeue, at any interleaving: it returns a message exactly if it has removed
      one, once, and then that one. Read ends otherwise only by throwing, closed and with the counter at zero; TryRead
      finds nothing only with the counter at zero; TryDequeue also when its one pass sees an empty list or fails. */
  lemma ReadReturnsWhatItRemoved<V>(r: seq<State<V>>, ls: seq<Label<V>>, i: nat, j: nat, t: nat)
    requires Calling(r, ls, i, j, t) && IsRead(ls[i].op)
    ensures t in r[j].pc
    ensures r[j].pc[t].Done? ==>
              var answer := r[j].pc[t].result;
              && RemovedBy(r, ls, t, i, j) == (if answer.Got? then [answer.value] else [])
              && (ls[i].op.Read? ==> answer.Got? || answer == ThrewClosed)
              && (!ls[i].op.Read? ==> answer.Got? || answer == Nothing)
              && (answer == ThrewClosed ==> r[j - 1].closed && SizeT(r[j - 1].size) == 0)
              && (answer == Nothing && ls[i].op.TryRead? ==> SizeT(r[j - 1].size) == 0)
    ensures r[j].pc[t].Done? && r[j].pc[t].result == Nothing && SizeT(r[j - 1].size) != 0 ==>
              t in r[j - 1].pc && (SawEmpty(r[j - 1].pc[t]) || PopFails(r[j - 1], ls[j - 1], t) == 1)
  {
    hide IsRun, RemovedBy, PopFails, SawEmpty, SizeT;
    ReadPath(r, ls, i, j, t);
    if r[j].pc[t].Done? { ReadEndsSeeing(r, ls, i, j, t); }
  }
}
