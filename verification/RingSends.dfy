/** What a whole send of a circular queue writes, and how it ends. */
module RingSends {
  import opened Roles
  import opened Ring
  import opened RingInvariant
  import opened RingFifo
  import opened RingCalls

  /** Where a send can be when it has written these values to slots, and moved the tail past these; excused says that
      it has met a full counter or a try that failed. */
  ghost predicate SendAt<V>(c: Config, pc: Pc<V>, op: Op<V>, written: seq<V>, stored: seq<V>, excused: bool)
    requires Sends(op)
  {
    match pc
    case SendProbe(w, blocking) => w == op.v && blocking == op.Send? && written == [] && stored == []
    case SetMode(w, blocking) => w == op.v && blocking == op.Send? && written == [] && stored == []
    case SendAcquire(w, blocking) => w == op.v && blocking == op.Send? && written == [] && stored == []
    case SendTicket(w, blocking) => w == op.v && blocking == op.Send? && written == [] && stored == []
    case SendLock(w, blocking) => w == op.v && blocking == op.Send? && written == [] && stored == []
    case SendCheck(w, _) => w == op.v && op.TrySend? && written == [] && stored == []
    case SendCancelUnlock => op.TrySend? && excused && written == [] && stored == []
    case SendCancelRelease => op.TrySend? && excused && written == [] && stored == []
    case SetTail(w, _, _) => w == op.v && written == [op.v] && stored == []
    case SendRelease => Complete(c, op.v, written, stored)
    case SendUnlock => Complete(c, op.v, written, stored)
    case SendCount => Complete(c, op.v, written, stored)
    case Done(Sent) => Complete(c, op.v, written, stored)
    case Done(Refused) => op.TrySend? && excused && written == [] && stored == []
    case Done(ThrewDeadlock) => op.Send? && excused && !c.policy.NoException? && written == [] && stored == []
    case Done(ThrewRole) => written == [] && stored == []
    case _ => Sending(pc) && pc.v == op.v && written == [] && stored == []
  }

  /** A ring with tickets has no tail to move. */
  ghost predicate Complete<V>(c: Config, v: V, written: seq<V>, stored: seq<V>) {
    written == [v] && stored == if c.Tickets() then [] else [v]
  }

  function Written<V>(s: State<V>, l: Label<V>): seq<V> {
    if l.t in s.pc && Succeeds(s, l) && s.pc[l.t].WriteSlot? then [s.pc[l.t].v] else []
  }

  /** What t writes in steps lo to hi. */
  ghost function WrittenBy<V>(r: seq<State<V>>, ls: seq<Label<V>>, t: nat, lo: nat, hi: nat): seq<V>
    requires lo <= hi <= |ls| < |r|
  {
    if lo == hi then []
    else WrittenBy(r, ls, t, lo, hi - 1) + if ls[hi - 1].t == t then Written(r[hi - 1], ls[hi - 1]) else []
  }

  /** What t moves the tail past in steps lo to hi. */
  ghost function StoredBy<V>(r: seq<State<V>>, ls: seq<Label<V>>, t: nat, lo: nat, hi: nat): seq<V>
    requires lo <= hi <= |ls| < |r|
  {
    if lo == hi then []
    else StoredBy(r, ls, t, lo, hi - 1) + if ls[hi - 1].t == t then Stored(r[hi - 1], ls[hi - 1]) else []
  }

  lemma BeginsSend<V>(s: State<V>, l: Label<V>)
    requires Enabled(s, l) && l.Begin? && Sends(l.op)
    ensures SendAt(s.config, Target(s, l), l.op, [], [], false) && Written(s, l) == [] && Stored(s, l) == []
    ensures Target(s, l) == Done(ThrewRole) <==> Throws(s.config.policy, RoleOf(s.roles, l.t), Producer)
  {
    hide Memory;
  }

  /** The send's own step. */
  lemma SendMoves<V>(s: State<V>, l: Label<V>, op: Op<V>, written: seq<V>, stored: seq<V>, excused: bool)
    requires Enabled(s, l) && Sends(op) && !s.pc[l.t].Done? && FitsSend(s.config, s.pc[l.t])
    requires SendAt(s.config, s.pc[l.t], op, written, stored, excused)
    ensures SendAt(s.config, Target(s, l), op, written + Written(s, l), stored + Stored(s, l),
                   excused || IsFull(s.config, s.sh) || TryFails(s, l, l.t))
    ensures Target(s, l) != Done(ThrewRole)
  {
    hide Memory, ReadNext, IsFull, MayBegin, Start;
    assert written + [] == written && stored + [] == stored;
  }

  lemma ExcuseStays<V>(c: Config, pc: Pc<V>, op: Op<V>, written: seq<V>, stored: seq<V>, excused: bool, excused': bool)
    requires Sends(op) && SendAt(c, pc, op, written, stored, excused) && (excused ==> excused')
    ensures SendAt(c, pc, op, written, stored, excused')
  {
  }

  ghost predicate Excused<V>(r: seq<State<V>>, ls: seq<Label<V>>, i: nat, j: nat, t: nat)
    requires i <= j <= |ls| < |r|
  {
    SawFull(r, i, j) || HadFailure(r, ls, i, j, t)
  }

  lemma ExcuseGrows<V>(r: seq<State<V>>, ls: seq<Label<V>>, i: nat, j: nat, t: nat)
    requires i <= j < |ls| < |r|
    ensures Excused(r, ls, i, j, t) || IsFull(r[j].config, r[j].sh) || TryFails(r[j], ls[j], t) ==>
              Excused(r, ls, i, j + 1, t)
  {
    hide IsFull, TryFails;
  }

  lemma {:induction false} SendPath<V>(r: seq<State<V>>, ls: seq<Label<V>>, i: nat, j: nat, t: nat)
    requires Calling(r, ls, i, j, t) && Sends(ls[i].op)
    ensures t in r[j].pc
    ensures SendAt(r[j].config, r[j].pc[t], ls[i].op, WrittenBy(r, ls, t, i, j), StoredBy(r, ls, t, i, j),
                   Excused(r, ls, i, j, t))
    ensures r[j].pc[t] == Done(ThrewRole) ==> Throws(r[i].config.policy, RoleOf(r[i].roles, t), Producer)
    ensures Throws(r[i].config.policy, RoleOf(r[i].roles, t), Producer) && j == i + 1 ==> r[j].pc[t] == Done(ThrewRole)
    decreases j
  {
    hide Memory, Target, Enabled, SendAt, Written, Stored, Initial, RolesAfter, Throws, Excused, Sends, TryFails,
    IsFull;
    var s, l := r[j - 1], ls[j - 1];
    assert Enabled(s, l) && r[j - 1 + 1] == Apply(s, l);
    HasThread(s, l);
    var excused' := Excused(r, ls, i, j, t);
    if i == j - 1 {
      BeginsSend(s, l);
      ExcuseStays(s.config, Target(s, l), l.op, [], [], false, excused');
      assert WrittenBy(r, ls, t, i, j) == WrittenBy(r, ls, t, i, i) + [];
      assert StoredBy(r, ls, t, i, j) == StoredBy(r, ls, t, i, i) + [];
    } else {
      SendPath(r, ls, i, j - 1, t);
      ExcuseGrows(r, ls, i, j - 1, t);
      var written, stored := WrittenBy(r, ls, t, i, j - 1), StoredBy(r, ls, t, i, j - 1);
      var excused := Excused(r, ls, i, j - 1, t);
      if l.t == t {
        RunFits(r, ls, j - 1, t);
        SendMoves(s, l, ls[i].op, written, stored, excused);
        ExcuseStays(s.config, Target(s, l), ls[i].op, written + Written(s, l), stored + Stored(s, l),
                    excused || IsFull(s.config, s.sh) || TryFails(s, l, t), excused');
      } else {
        assert written + [] == written && stored + [] == stored;
        ExcuseStays(s.config, s.pc[t], ls[i].op, written, stored, excused, excused');
      }
    }
  }

  /** What the probe saw when it makes a send throw. */
  lemma WarnedSees<V>(s: State<V>, l: Label<V>)
    requires Enabled(s, l) && !s.pc[l.t].Done? && Target(s, l) == Done(ThrewDeadlock) && Sending(s.pc[l.t])
    ensures RoleOf(s.roles, l.t) == Both && IsFull(s.config, s.sh) && !s.config.policy.NoException?
  {
    hide Memory, ReadNext, IsFull;
  }

  lemma SendWarned<V>(r: seq<State<V>>, ls: seq<Label<V>>, i: nat, j: nat, t: nat)
    requires Calling(r, ls, i, j, t) && Sends(ls[i].op) && t in r[j].pc && r[j].pc[t] == Done(ThrewDeadlock)
    ensures RoleOf(r[j - 1].roles, t) == Both && IsFull(r[j - 1].config, r[j - 1].sh)
    ensures !r[j - 1].config.policy.NoException?
  {
    hide Memory, RolesAfter, Initial, IsFull, Target, SendAt, Throws, Enabled;
    if i == j - 1 {
      assert Enabled(r[i], ls[i]) && r[i + 1] == Apply(r[i], ls[i]);
      HasThread(r[i], ls[i]);
      CallDoesNotWarn(r[i], ls[i]);
    } else {
      SendPath(r, ls, i, j - 1, t);
      LastStep(r, ls, i, j, t);
      AtSends(r[j - 1].config, r[j - 1].pc[t], ls[i].op, WrittenBy(r, ls, t, i, j - 1), StoredBy(r, ls, t, i, j - 1),
              Excused(r, ls, i, j - 1, t));
      WarnedSees(r[j - 1], ls[j - 1]);
    }
  }

  lemma AtSends<V>(c: Config, pc: Pc<V>, op: Op<V>, written: seq<V>, stored: seq<V>, excused: bool)
    requires Sends(op) && SendAt(c, pc, op, written, stored, excused) && !pc.Done?
    ensures Sending(pc)
  {
  }

  lemma CallDoesNotWarn<V>(s: State<V>, l: Label<V>)
    requires l.t in s.pc && l.Begin?
    ensures Target(s, l) != Done(ThrewDeadlock)
  {
  }

  /** A whole call of Send or TrySend, at any interleaving, in all categories and policies: it has written its own
      message to one slot if it returns that it was sent, and moved the tail past it once unless the ring hands out
      tickets; otherwise it has written nothing. Send ends otherwise only by throwing: for its role exactly if that
      changed, or for a deadlock, in both roles on a full counter. TrySend ends otherwise for its role, or refused: it
      met a full counter, or a permit or a mutex that it did not get. */
  lemma SendWritesItsMessage<V>(r: seq<State<V>>, ls: seq<Label<V>>, i: nat, j: nat, t: nat)
    requires Calling(r, ls, i, j, t) && Sends(ls[i].op)
    ensures t in r[j].pc
    ensures r[j].pc[t].Done? ==>
              var answer := r[j].pc[t].result;
              && WrittenBy(r, ls, t, i, j) == (if answer == Sent then [ls[i].op.v] else [])
              && (!r[j].config.Tickets() ==> StoredBy(r, ls, t, i, j) == if answer == Sent then [ls[i].op.v] else [])
              && (ls[i].op.Send? ==> answer in {Sent, ThrewRole, ThrewDeadlock})
              && (ls[i].op.TrySend? ==> answer in {Sent, ThrewRole, Refused})
              && (answer == ThrewRole ==> Throws(r[i].config.policy, RoleOf(r[i].roles, t), Producer))
              && (answer == Refused ==> SawFull(r, i, j) || HadFailure(r, ls, i, j, t))
              && (answer == ThrewDeadlock ==>
                    && RoleOf(r[j - 1].roles, t) == Both && !r[j - 1].config.policy.NoException?
                    && IsFull(r[j - 1].config, r[j - 1].sh))
    ensures Throws(r[i].config.policy, RoleOf(r[i].roles, t), Producer) && j == i + 1 ==> r[j].pc[t] == Done(ThrewRole)
  {
    hide IsRun, WrittenBy, StoredBy, SawFull, HadFailure, Throws, IsFull;
    SendPath(r, ls, i, j, t);
    if r[j].pc[t] == Done(ThrewDeadlock) { SendWarned(r, ls, i, j, t); }
  }
}
