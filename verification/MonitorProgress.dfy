/** Wake-ups, deadlock, rollback, close and the deadlock alarm of the monitor queue, for every run. */
module MonitorProgress {
  import opened Roles
  import opened Monitor
  import opened MonitorInvariant
  import opened MonitorTheorems
  import Tallies

  /** A run in which every throw passes its wake-up on; the deque queue has no other runs. */
  ghost predicate Careful<V>(r: seq<State<V>>) {
    forall j | 0 <= j < |r| :: NoSilentThrow(r[j])
  }

  lemma DequeIsCareful<V>(r: seq<State<V>>, ls: seq<Label<V>>)
    requires IsRun(r, ls) && r[0].config.rollbackNotifies
    ensures Careful(r)
  {
    forall j | 0 <= j < |r| ensures NoSilentThrow(r[j]) {
      ConfigStays(r, ls, j);
    }
  }

  lemma {:induction false} ConfigStays<V>(r: seq<State<V>>, ls: seq<Label<V>>, i: nat)
    requires IsRun(r, ls) && i < |r|
    ensures r[i].config == r[0].config
  {
    hide Enabled, Memory, Threads, RolesAfter, Initial;
    if i > 0 {
      ConfigStays(r, ls, i - 1);
      assert Enabled(r[i - 1], ls[i - 1]) && r[i - 1 + 1] == Apply(r[i - 1], ls[i - 1]);
    }
  }

  /** No lost wake-up: while the queue is open and some sender sleeps, the free slots are at most the pending
      notify_one calls plus the woken senders yet to look; likewise for readers and stored messages. Hence when
      nothing is pending, sleeping senders mean a full queue, sleeping readers an empty one. */
  lemma NoLostWakeUp<V>(r: seq<State<V>>, ls: seq<Label<V>>, i: nat)
    requires IsRun(r, ls) && i < |r| && Careful(r) && !r[i].sh.closed
    ensures SomeoneSleeps(r[i], true) ==>
              r[i].sh.free <= Tallies.Count(r[i].pc, NotifiesSenders<V>) + Tallies.Count(r[i].pc, SendAwake<V>)
    ensures SomeoneSleeps(r[i], false) ==>
              r[i].sh.used <= Tallies.Count(r[i].pc, NotifiesReaders<V>) + Tallies.Count(r[i].pc, ReadAwake<V>)
  {
    hide IsRun, Reserved;
    RunInv(r, ls, i);
    SleepersCount(r[i]);
  }

  /** With no notify_one to come and no woken thread yet to look, sleeping senders mean that no slot is free and
      sleeping readers that no message is stored; once the mutex is free both kinds never sleep together. */
  lemma QuietSleepers<V>(r: seq<State<V>>, ls: seq<Label<V>>, i: nat)
    requires IsRun(r, ls) && i < |r| && Careful(r) && !r[i].sh.closed
    requires forall t | t in r[i].pc ::
               && !NotifiesSenders(r[i].pc[t]) && !SendAwake(r[i].pc[t])
               && !NotifiesReaders(r[i].pc[t]) && !ReadAwake(r[i].pc[t])
    ensures SomeoneSleeps(r[i], true) ==> r[i].sh.free == 0
    ensures SomeoneSleeps(r[i], false) ==> r[i].sh.used == 0
    ensures r[i].sh.mutex == Free ==> !(SomeoneSleeps(r[i], true) && SomeoneSleeps(r[i], false))
  {
    hide IsRun, SomeoneSleeps, Reserved, SendersServed, ReadersServed, ClosersServe;
    Tallies.Zero(r[i].pc, NotifiesSenders<V>);
    Tallies.Zero(r[i].pc, SendAwake<V>);
    Tallies.Zero(r[i].pc, NotifiesReaders<V>);
    Tallies.Zero(r[i].pc, ReadAwake<V>);
    NoLostWakeUp(r, ls, i);
    RunInv(r, ls, i);
    ReservationsBalance(r, ls, i);
    CapacityPositive(r[i]);
    FreeAndUsed(r[i]);
  }

  lemma SleepersCount<V>(s: State<V>)
    ensures SomeoneSleeps(s, true) ==> Tallies.Count(s.pc, SendSleeps<V>) > 0
    ensures SomeoneSleeps(s, false) ==> Tallies.Count(s.pc, ReadSleeps<V>) > 0
  {
    if SomeoneSleeps(s, true) {
      var w :| w in s.pc && s.pc[w].SendSleep?;
      Tallies.NonZero(s.pc, w, SendSleeps<V>);
    }
    if SomeoneSleeps(s, false) {
      var w :| w in s.pc && s.pc[w].ReadSleep?;
      Tallies.NonZero(s.pc, w, ReadSleeps<V>);
    }
  }

  /** No thread can take a step of its own: what is left is new calls and spurious wake-ups. */
  ghost predicate Stuck<V>(s: State<V>) {
    forall t | t in s.pc :: !Enabled(s, Step(t)) && forall w | w in s.pc :: !Enabled(s, NotifyOne(t, w))
  }

  /** The mutex is free when nobody can step, and then everyone is idle or asleep. */
  lemma StuckMeansAsleep<V>(s: State<V>, t: nat)
    requires Reserved(s) && Stuck(s) && t in s.pc
    ensures s.sh.mutex == Free
    ensures s.pc[t].Done? || s.pc[t].SendSleep? || s.pc[t].ReadSleep?
  {
    hide Books;
    if s.sh.mutex.HeldBy? {
      HolderRuns(s, s.sh.mutex.t);
    }
    assert !Enabled(s, Step(t));
    if NotifiesSenders(s.pc[t]) || NotifiesReaders(s.pc[t]) {
      assert forall w | w in s.pc :: !Enabled(s, NotifyOne(t, w));
    }
  }

  /** Deadlock freedom: if no thread can step, a sleeping sender means the open queue is full and a sleeping
      reader that it is empty, so both sides are never asleep together, and a closed queue leaves nobody asleep. */
  lemma StuckMeansFullOrEmpty<V>(r: seq<State<V>>, ls: seq<Label<V>>, i: nat)
    requires IsRun(r, ls) && i < |r| && Careful(r) && Stuck(r[i])
    ensures SomeoneSleeps(r[i], true) ==> !r[i].sh.closed && |r[i].sh.buffer| == r[i].config.capacity
    ensures SomeoneSleeps(r[i], false) ==> !r[i].sh.closed && r[i].sh.buffer == []
    ensures !(SomeoneSleeps(r[i], true) && SomeoneSleeps(r[i], false))
  {
    hide IsRun, Stuck, SomeoneSleeps, Reserved;
    var s := r[i];
    RunInv(r, ls, i);
    SleepersCount(s);
    ReservationsBalance(r, ls, i);
    forall t | t in s.pc ensures s.sh.mutex == Free && (s.pc[t].Done? || s.pc[t].SendSleep? || s.pc[t].ReadSleep?) {
      StuckMeansAsleep(s, t);
    }
    Tallies.Zero(s.pc, NotifiesSenders<V>);
    Tallies.Zero(s.pc, NotifiesReaders<V>);
    Tallies.Zero(s.pc, SendAwake<V>);
    Tallies.Zero(s.pc, ReadAwake<V>);
    Tallies.Zero(s.pc, ClosingSenders<V>);
    Tallies.Zero(s.pc, Closing<V>);
    if SomeoneSleeps(s, true) || SomeoneSleeps(s, false) {
      var t := AnySleeper(s);
      CapacityPositive(s);
      FreeAndUsed(s);
    }
  }

  lemma AnySleeper<V>(s: State<V>) returns (t: nat)
    requires SomeoneSleeps(s, true) || SomeoneSleeps(s, false)
    ensures t in s.pc
  {
    t :| t in s.pc && (s.pc[t].SendSleep? || s.pc[t].ReadSleep?);
  }

  lemma CapacityPositive<V>(s: State<V>)
    requires Reserved(s)
    ensures s.config.capacity >= 1
  {
    hide Exclusive, Books;
  }

  lemma FreeAndUsed<V>(s: State<V>)
    requires Reserved(s)
    ensures s.sh.free >= 0 && s.sh.used >= 0
  {
    hide Exclusive;
  }

  /** While a thread holds the mutex nobody else's step touches the fields. */
  lemma OthersLeaveFields<V>(s: State<V>, l: Label<V>, t: nat)
    requires Reserved(s) && Enabled(s, l) && t in s.pc && Holding(s.pc[t]) && l.t != t
    ensures Apply(s, l).sh == s.sh
  {
    hide Books, Threads;
    assert !Holding(s.pc[l.t]) && s.sh.mutex == HeldBy(t);
  }

  /** A store that throws hands its reservation back: from the throw at step m until the thread lets go of the
      mutex at step j the queue is as it was, and then the books balance again. The pop is alike. */
  lemma {:induction false} ThrowRestores<V>(r: seq<State<V>>, ls: seq<Label<V>>, m: nat, j: nat, t: nat)
    requires IsRun(r, ls) && m < j <= |ls| && ls[m] == Fail(t)
    requires forall x | m < x <= j :: t in r[x].pc && (r[x].pc[t].StoreThrew? || r[x].pc[t].PopThrew?)
    ensures r[j].sh == r[m].sh
    ensures j < |ls| && ls[j] == Step(t) ==>
              && r[j + 1].sh.mutex == Free && r[j + 1].sh.buffer == r[m].sh.buffer
              && r[j + 1].sh.used == |r[m].sh.buffer| && r[j + 1].sh.free == r[j + 1].config.capacity - |r[m].sh.buffer|
    decreases j
  {
    hide Reserved, Apply, Enabled, Initial;
    RunInv(r, ls, j - 1);
    var s, l := r[j - 1], ls[j - 1];
    assert Enabled(s, l) && r[j - 1 + 1] == Apply(s, l);
    if m < j - 1 {
      ThrowRestores(r, ls, m, j - 1, t);
      if l.t == t {
        ThrewReleases(s, l);
      } else {
        OthersLeaveFields(s, l, t);
      }
    } else {
      ThrowsLeaveFields(s, l);
    }
    if j < |ls| && ls[j] == Step(t) {
      assert Enabled(r[j], ls[j]) && r[j + 1] == Apply(r[j], ls[j]);
      ThrewReleases(r[j], ls[j]);
      ReservationsBalance(r, ls, j + 1);
    }
  }

  lemma ThrowsLeaveFields<V>(s: State<V>, l: Label<V>)
    requires Enabled(s, l) && l.Fail?
    ensures Apply(s, l).sh == s.sh
  {
    hide Threads;
  }

  lemma ThrewReleases<V>(s: State<V>, l: Label<V>)
    requires Enabled(s, l) && (s.pc[l.t].StoreThrew? || s.pc[l.t].PopThrew?)
    ensures l.Step? && Apply(s, l).sh.mutex == Free && Apply(s, l).sh.buffer == s.sh.buffer
    ensures !Apply(s, l).pc[l.t].StoreThrew? && !Apply(s, l).pc[l.t].PopThrew?
  {
  }

  /** A closed queue stays closed, and no store is under way in it. */
  lemma {:induction false} StaysClosed<V>(r: seq<State<V>>, ls: seq<Label<V>>, i: nat, j: nat)
    requires IsRun(r, ls) && i <= j < |r| && r[i].sh.closed
    ensures r[j].sh.closed && forall t | t in r[j].pc :: !Storing(r[j].pc[t])
    decreases j
  {
    hide Enabled, Memory, Threads, Initial, RolesAfter;
    RunInv(r, ls, j);
    if i < j {
      StaysClosed(r, ls, i, j - 1);
      assert Enabled(r[j - 1], ls[j - 1]) && r[j - 1 + 1] == Apply(r[j - 1], ls[j - 1]);
      ClosedStays(r[j - 1], ls[j - 1]);
    }
    NoStoreWhenClosed(r[j]);
  }

  lemma NoStoreWhenClosed<V>(s: State<V>)
    requires Reserved(s) && s.sh.closed
    ensures forall t | t in s.pc :: !Storing(s.pc[t])
  {
    forall t | t in s.pc && Storing(s.pc[t]) ensures false {
      assert Holding(s.pc[t]);
      HolderBooks(s, t);
    }
  }

  /** Close and drain: after Close nothing is added, and what the reads get, in order, is a front part of what
      was there when the queue was closed. */
  lemma {:induction false} CloseAndDrain<V>(r: seq<State<V>>, ls: seq<Label<V>>, i: nat, j: nat)
    requires IsRun(r, ls) && i <= j <= |ls| && r[i].sh.closed
    ensures Sends(r, ls, i, j) == []
    ensures r[i].sh.buffer == Receipts(r, ls, i, j) + r[j].sh.buffer
    decreases j
  {
    hide Enabled, Apply, Initial, Receipts;
    if i < j {
      CloseAndDrain(r, ls, i, j - 1);
      StaysClosed(r, ls, i, j - 1);
      assert Enabled(r[j - 1], ls[j - 1]);
    }
    NothingLost(r, ls, i, j);
    assert r[i].sh.buffer + Sends(r, ls, i, j) == r[i].sh.buffer;
  }

  /** The directions thread t has asked for in the first n steps. */
  ghost function Attempts<V>(ls: seq<Label<V>>, n: nat, t: nat): seq<Role>
    requires n <= |ls|
  {
    if n == 0 then []
    else Attempts(ls, n - 1, t) +
         (match ls[n - 1] case Begin(u, op) => if u == t && !op.Close? then [Direction(op)] else [] case _ => [])
  }

  /** The role recorded for a thread is the one its attempts amount to. */
  lemma {:induction false} RoleIsHistory<V>(r: seq<State<V>>, ls: seq<Label<V>>, i: nat, t: nat)
    requires IsRun(r, ls) && i < |r|
    ensures RoleOf(r[i].roles, t) == After(r[0].config.policy, Attempts(ls, i, t))
    ensures Directions(Attempts(ls, i, t))
  {
    hide Enabled, Memory, Threads, Account;
    if i > 0 {
      RoleIsHistory(r, ls, i - 1, t);
      ConfigStays(r, ls, i - 1);
      assert Enabled(r[i - 1], ls[i - 1]) && r[i - 1 + 1] == Apply(r[i - 1], ls[i - 1]);
      var a := Attempts(ls, i - 1, t);
      if ls[i - 1].Begin? && ls[i - 1].t == t && !ls[i - 1].op.Close? {
        assert (a + [Direction(ls[i - 1].op)])[..|a|] == a;
      } else {
        assert Attempts(ls, i, t) == a;
      }
    }
  }

  /** A thread that the probe warns has attempted both directions, under a policy that lets it. */
  lemma AlarmNeedsBothDirections<V>(r: seq<State<V>>, ls: seq<Label<V>>, i: nat, t: nat)
    requires IsRun(r, ls) && i < |r| && t in r[i].pc && Alarm(r[i], t)
    ensures Producer in Attempts(ls, i, t) && Consumer in Attempts(ls, i, t)
    ensures !r[0].config.policy.OnThreadRoleChange?
  {
    hide Attempts;
    RoleIsHistory(r, ls, i, t);
    BothMeansBothDirections(r[0].config.policy, Attempts(ls, i, t));
  }

  /** A thread that could still free a slot, or fill one. */
  predicate Reading<V>(pc: Pc<V>) {
    || pc.ReadProbe? || pc.ReadLock? || pc.ReadWait? || pc.ReadSleep? || pc.ReadWoken? || pc.ReadTake?
    || pc.TryReadLock? || pc.TryReadTest? || Popping(pc)
  }

  predicate Writing<V>(pc: Pc<V>) {
    || pc.SendProbe? || pc.SendLock? || pc.SendEnter? || pc.SendWait? || pc.SendSleep? || pc.SendWoken? || pc.SendTake?
    || pc.TrySendLock? || pc.TrySendTest? || Storing(pc)
  }

  ghost predicate NoRoom<V>(s: State<V>) {
    s.sh.free == 0 && forall u | u in s.pc :: !Reading(s.pc[u]) && !Storing(s.pc[u])
  }

  ghost predicate NoMessage<V>(s: State<V>) {
    s.sh.used == 0 && forall u | u in s.pc :: !Writing(s.pc[u]) && !Popping(s.pc[u])
  }

  lemma NoRoomMover<V>(s: State<V>, l: Label<V>)
    requires Enabled(s, l) && !(l.Begin? && (l.op.Read? || l.op.TryRead?))
    requires s.sh.free == 0 && !Reading(s.pc[l.t]) && !Storing(s.pc[l.t])
    requires Holding(s.pc[l.t]) ==> Books(s.config, s.sh, s.pc[l.t])
    ensures Memory(s, l).free == 0 && !Reading(Target(s, l)) && !Storing(Target(s, l))
  {
  }

  lemma NoMessageMover<V>(s: State<V>, l: Label<V>)
    requires Enabled(s, l) && !(l.Begin? && (l.op.Send? || l.op.TrySend?))
    requires s.sh.used == 0 && !Writing(s.pc[l.t]) && !Popping(s.pc[l.t])
    requires Holding(s.pc[l.t]) ==> Books(s.config, s.sh, s.pc[l.t])
    ensures Memory(s, l).used == 0 && !Writing(Target(s, l)) && !Popping(Target(s, l))
  {
  }

  lemma WakingKeepsSides<V>(pc: Pc<V>)
    ensures Reading(WakeUp(pc)) == Reading(pc) && Writing(WakeUp(pc)) == Writing(pc)
    ensures Storing(WakeUp(pc)) == Storing(pc) && Popping(WakeUp(pc)) == Popping(pc)
  {
  }

  lemma NoRoomStep<V>(s: State<V>, l: Label<V>)
    requires Reserved(s) && NoRoom(s) && Enabled(s, l) && !(l.Begin? && (l.op.Read? || l.op.TryRead?))
    ensures NoRoom(Apply(s, l))
  {
    hide Reserved, Memory, Target, Reading, Storing, WakeUp;
    if Holding(s.pc[l.t]) { HolderBooks(s, l.t); }
    NoRoomMover(s, l);
    forall u | u in s.pc && u != l.t ensures !Reading(Apply(s, l).pc[u]) && !Storing(Apply(s, l).pc[u]) {
      OthersKeepClass(s, l, u);
      WakingKeepsSides(s.pc[u]);
    }
  }

  lemma NoMessageStep<V>(s: State<V>, l: Label<V>)
    requires Reserved(s) && NoMessage(s) && Enabled(s, l) && !(l.Begin? && (l.op.Send? || l.op.TrySend?))
    ensures NoMessage(Apply(s, l))
  {
    hide Reserved, Memory, Target, Writing, Popping, WakeUp;
    if Holding(s.pc[l.t]) { HolderBooks(s, l.t); }
    NoMessageMover(s, l);
    forall u | u in s.pc && u != l.t ensures !Writing(Apply(s, l).pc[u]) && !Popping(Apply(s, l).pc[u]) {
      OthersKeepClass(s, l, u);
      WakingKeepsSides(s.pc[u]);
    }
  }

  /** The probe is about to warn t that a send would deadlock, and nobody is reading. */
  ghost predicate SendWarned<V>(s: State<V>, t: nat) {
    && t in s.pc && s.pc[t].SendProbe? && Alarm(s, t) && Enabled(s, Step(t))
    && forall u | u in s.pc :: !Reading(s.pc[u])
  }

  ghost predicate ReadWarned<V>(s: State<V>, t: nat) {
    && t in s.pc && s.pc[t].ReadProbe? && Alarm(s, t) && Enabled(s, Step(t))
    && forall u | u in s.pc :: !Writing(s.pc[u])
  }

  /** A warned thread has seen the counter at zero with nobody inside the monitor. */
  lemma WarnedNow<V>(s: State<V>, t: nat)
    requires Reserved(s)
    ensures SendWarned(s, t) ==> NoRoom(s)
    ensures ReadWarned(s, t) ==> NoMessage(s)
  {
    hide Books;
    if SendWarned(s, t) || ReadWarned(s, t) {
      assert forall u | u in s.pc :: !Holding(s.pc[u]);
    }
  }

  /** The send alarm is sound: if t is warned while nobody else reads, free_ stays zero and no message is
      stored for as long as no thread starts to read. */
  lemma {:induction false} SendAlarmIsSound<V>(r: seq<State<V>>, ls: seq<Label<V>>, i: nat, j: nat, t: nat)
    requires IsRun(r, ls) && i <= j <= |ls|
    requires SendWarned(r[i], t)
    requires forall m | i <= m < j :: !(ls[m].Begin? && (ls[m].op.Read? || ls[m].op.TryRead?))
    ensures NoRoom(r[j]) && Sends(r, ls, i, j) == []
    decreases j
  {
    hide Apply, Reserved, ClosersServe, Inv, NoSilentThrow, Initial;
    hide NoRoom, NoMessage, SendWarned, ReadWarned, Enabled, Stored, Taken;
    RunInv(r, ls, i);
    if i == j {
      WarnedNow(r[i], t);
    } else {
      SendAlarmIsSound(r, ls, i, j - 1, t);
      RunInv(r, ls, j - 1);
      assert Enabled(r[j - 1], ls[j - 1]) && r[j - 1 + 1] == Apply(r[j - 1], ls[j - 1]);
      NoRoomStep(r[j - 1], ls[j - 1]);
      NoRoomMeansNoStore(r[j - 1], ls[j - 1]);
    }
  }

  lemma NoRoomMeansNoStore<V>(s: State<V>, l: Label<V>)
    requires NoRoom(s)
    ensures Stored(s, l) == []
  {
  }

  /** The read alarm is sound: dually, used_ stays zero and nothing is popped until some thread starts to send. */
  lemma {:induction false} ReadAlarmIsSound<V>(r: seq<State<V>>, ls: seq<Label<V>>, i: nat, j: nat, t: nat)
    requires IsRun(r, ls) && i <= j <= |ls|
    requires ReadWarned(r[i], t)
    requires forall m | i <= m < j :: !(ls[m].Begin? && (ls[m].op.Send? || ls[m].op.TrySend?))
    ensures NoMessage(r[j]) && Receipts(r, ls, i, j) == []
    decreases j
  {
    hide Apply, Reserved, ClosersServe, Inv, NoSilentThrow, Initial;
    hide NoRoom, NoMessage, SendWarned, ReadWarned, Enabled, Stored, Taken;
    RunInv(r, ls, i);
    if i == j {
      WarnedNow(r[i], t);
    } else {
      ReadAlarmIsSound(r, ls, i, j - 1, t);
      RunInv(r, ls, j - 1);
      assert Enabled(r[j - 1], ls[j - 1]) && r[j - 1 + 1] == Apply(r[j - 1], ls[j - 1]);
      NoMessageStep(r[j - 1], ls[j - 1]);
      NoMessageMeansNoPop(r[j - 1], ls[j - 1]);
    }
  }

  lemma NoMessageMeansNoPop<V>(s: State<V>, l: Label<V>)
    requires NoMessage(s)
    ensures Taken(s, l) == []
  {
  }
}
