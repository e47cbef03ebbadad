/** What a whole read of a circular queue removes, and how it ends. */
module RingReads {
  import opened Roles
  import opened Ring
  import opened RingInvariant
  import opened RingCalls

  /** The removal of a message: by ticket the access to the slot, and otherwise the head moves past it. */
  function Removed<V>(s: State<V>, l: Label<V>): seq<V> {
    if l.t !in s.pc || !Succeeds(s, l) then []
    else match s.pc[l.t]
         case ReadSlot(index) => if index < |s.sh.buffer| then [s.sh.buffer[index]] else []
         case CasHead(_, value, _) => [value]
         case _ => []
  }

  /** What t removes in steps lo to hi. */
  ghost function RemovedBy<V>(r: seq<State<V>>, ls: seq<Label<V>>, t: nat, lo: nat, hi: nat): seq<V>
    requires lo <= hi <= |ls| < |r|
  {
    if lo == hi then []
    else RemovedBy(r, ls, t, lo, hi - 1) + if ls[hi - 1].t == t then Removed(r[hi - 1], ls[hi - 1]) else []
  }

  /** Where a read can be when it has removed these values; excused says that it has met an empty counter or a try that
      failed. */
  ghost predicate ReadAt<V>(c: Config, pc: Pc<V>, op: Op<V>, removed: seq<V>, excused: bool) {
    match pc
    case ReadProbe(blocking) => blocking == op.Read? && removed == []
    case ReadMode(blocking) => blocking == op.Read? && removed == []
    case ReadLock(blocking) => blocking == op.Read? && removed == []
    case ReadAcquire(blocking, _) => blocking == op.Read? && removed == []
    case ReadTicket(blocking) => blocking == op.Read? && removed == []
    case ReadGiveUp => op.TryRead? && excused && removed == []
    case ReadCheck(_) => op.TryRead? && removed == []
    case ReadCancelRelease => op.TryRead? && excused && removed == []
    case ReadCancelUnlock => op.TryRead? && excused && removed == []
    case ReadSlot(_) => removed == []
    case LoadHead => removed == []
    case MoveHead(_, _) => removed == []
    case CasHead(_, _, _) => removed == []
    case ReadCount(value) => removed == [value]
    case ReadRelease(value) => removed == [value]
    case ReadUnlock(value) => removed == [value]
    case Done(Got(value)) => removed == [value]
    case Done(Nothing) => op.TryRead? && excused && removed == []
    case Done(ThrewDeadlock) => op.Read? && !c.policy.NoException? && removed == []
    case Done(ThrewRole) => removed == []
    case _ => false
  }

  lemma BeginsRead<V>(s: State<V>, l: Label<V>)
    requires Enabled(s, l) && l.Begin? && !Sends(l.op)
    ensures ReadAt(s.config, Target(s, l), l.op, [], false) && Removed(s, l) == []
    ensures Target(s, l) == Done(ThrewRole) <==> Throws(s.config.policy, RoleOf(s.roles, l.t), Consumer)
    ensures Target(s, l) != Done(ThrewDeadlock)
  {
    hide Memory;
  }

  /** The read's own step. */
  lemma ReadMoves<V>(s: State<V>, l: Label<V>, op: Op<V>, removed: seq<V>, excused: bool)
    requires Enabled(s, l) && !Sends(op) && !s.pc[l.t].Done? && ReadAt(s.config, s.pc[l.t], op, removed, excused)
    requires FitsShared(s.config, s.sh) && FitsRead(s.config, s.pc[l.t])
    ensures ReadAt(s.config, Target(s, l), op, removed + Removed(s, l),
                   excused || IsEmpty(s.sh) || TryFails(s, l, l.t))
    ensures Target(s, l) != Done(ThrewRole)
    ensures Target(s, l) == Done(ThrewDeadlock) ==>
              RoleOf(s.roles, l.t) == Both && IsEmpty(s.sh) && !s.config.policy.NoException?
  {
    hide Memory, SendNext, IsEmpty, MovedOut, Next;
    assert removed + [] == removed;
  }

  lemma ExcuseStays<V>(c: Config, pc: Pc<V>, op: Op<V>, removed: seq<V>, excused: bool, excused': bool)
    requires ReadAt(c, pc, op, removed, excused) && (excused ==> excused')
    ensures ReadAt(c, pc, op, removed, excused')
  {
  }

  ghost predicate Excused<V>(r: seq<State<V>>, ls: seq<Label<V>>, i: nat, j: nat, t: nat)
    requires i <= j <= |ls| < |r|
  {
    SawEmpty(r, i, j) || HadFailure(r, ls, i, j, t)
  }

  lemma ExcuseGrows<V>(r: seq<State<V>>, ls: seq<Label<V>>, i: nat, j: nat, t: nat)
    requires i <= j < |ls| < |r|
    ensures Excused(r, ls, i, j, t) || IsEmpty(r[j].sh) || TryFails(r[j], ls[j], t) ==> Excused(r, ls, i, j + 1, t)
  {
    hide IsEmpty, TryFails;
  }

  lemma {:induction false} ReadPath<V>(r: seq<State<V>>, ls: seq<Label<V>>, i: nat, j: nat, t: nat)
    requires Calling(r, ls, i, j, t) && !Sends(ls[i].op)
    ensures t in r[j].pc
    ensures ReadAt(r[j].config, r[j].pc[t], ls[i].op, RemovedBy(r, ls, t, i, j), Excused(r, ls, i, j, t))
    ensures r[j].pc[t] == Done(ThrewRole) ==> Throws(r[i].config.policy, RoleOf(r[i].roles, t), Consumer)
    ensures Throws(r[i].config.policy, RoleOf(r[i].roles, t), Consumer) && j == i + 1 ==> r[j].pc[t] == Done(ThrewRole)
    ensures r[j].pc[t] == Done(ThrewDeadlock) ==> RoleOf(r[j - 1].roles, t) == Both && IsEmpty(r[j - 1].sh)
    decreases j
  {
    hide Memory, Target, Enabled, ReadAt, Removed, Initial, RolesAfter, Throws, Excused, Sends, TryFails, IsEmpty;
    var s, l := r[j - 1], ls[j - 1];
    assert Enabled(s, l) && r[j - 1 + 1] == Apply(s, l);
    HasThread(s, l);
    var excused' := Excused(r, ls, i, j, t);
    if i == j - 1 {
      BeginsRead(s, l);
      ExcuseStays(s.config, Target(s, l), l.op, [], false, excused');
      assert RemovedBy(r, ls, t, i, j) == RemovedBy(r, ls, t, i, i) + [];
    } else {
      ReadPath(r, ls, i, j - 1, t);
      ExcuseGrows(r, ls, i, j - 1, t);
      var removed, excused := RemovedBy(r, ls, t, i, j - 1), Excused(r, ls, i, j - 1, t);
      if l.t == t {
        RunFits(r, ls, j - 1, t);
        ReadMoves(s, l, ls[i].op, removed, excused);
        ExcuseStays(s.config, Target(s, l), ls[i].op, removed + Removed(s, l),
                    excused || IsEmpty(s.sh) || TryFails(s, l, t), excused');
      } else {
        assert removed + [] == removed;
        ExcuseStays(s.config, s.pc[t], ls[i].op, removed, excused, excused');
      }
    }
  }

  /** A whole call of Read or TryRead, at any interleaving, in all categories and policies: it returns a message exactly
      if it has removed one, once, and then the one that this removal took. Otherwise it has removed nothing, and Read
      ends only by throwing: for its role exactly if that changed, or for a deadlock, in both roles on an empty counter.
      TryRead ends otherwise for its role, or with nothing: it met an empty counter, or a permit or a mutex that it did
      not get. */
  lemma ReadReturnsWhatItRemoved<V>(r: seq<State<V>>, ls: seq<Label<V>>, i: nat, j: nat, t: nat)
    requires Calling(r, ls, i, j, t) && !Sends(ls[i].op)
    ensures t in r[j].pc
    ensures r[j].pc[t].Done? ==>
              var answer := r[j].pc[t].result;
              && RemovedBy(r, ls, t, i, j) == (if answer.Got? then [answer.value] else [])
              && (ls[i].op.Read? ==> answer.Got? || answer in {ThrewRole, ThrewDeadlock})
              && (ls[i].op.TryRead? ==> answer.Got? || answer in {ThrewRole, Nothing})
              && (answer == ThrewRole ==> Throws(r[i].config.policy, RoleOf(r[i].roles, t), Consumer))
              && (answer == Nothing ==> SawEmpty(r, i, j) || HadFailure(r, ls, i, j, t))
              && (answer == ThrewDeadlock ==>
                    && RoleOf(r[j - 1].roles, t) == Both && !r[j].config.policy.NoException? && IsEmpty(r[j - 1].sh))
    ensures Throws(r[i].config.policy, RoleOf(r[i].roles, t), Consumer) && j == i + 1 ==> r[j].pc[t] == Done(ThrewRole)
  {
    hide IsRun, RemovedBy, SawEmpty, HadFailure, Throws, IsEmpty;
    ReadPath(r, ls, i, j, t);
  }
}
