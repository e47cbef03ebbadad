/** What the circular queues are for, one call at a time, and how their fields hold such a queue. */
module CircularSpec {
  import opened Roles
  import opened Ring
  import opened Slots

  // A bounded FIFO refuses when full; a FIFO that drops the oldest removes its first message when full.

  /** A call returns or throws, or is left waiting. */
  datatype Outcome<V> = Ended(result: Result<V>) | Blocks

  /** The queue after a send that goes through. */
  function Enqueued<V>(c: Config, q: seq<V>, v: V): seq<V> {
    (if |q| >= c.capacity && |q| > 0 then q[1..] else q) + [v]
  }

  /** role is the caller's role after the call was accounted; threw says that accounting it threw. */
  function SendResult<V>(c: Config, role: Role, threw: bool, q: seq<V>): Outcome<V> {
    if threw then Ended(ThrewRole)
    else if role == Both && |q| >= c.capacity && !c.policy.NoException? then Ended(ThrewDeadlock)
    else if c.overflow.Bounded? && |q| >= c.capacity then Blocks
    else Ended(Sent)
  }

  /** fails: the try_acquire or try_lock of the category fails without cause. */
  function TrySendResult<V>(c: Config, role: Role, threw: bool, q: seq<V>, fails: bool): Outcome<V> {
    if threw then Ended(ThrewRole)
    else if |q| >= c.capacity && (role == Both || c.overflow.Bounded?) then Ended(Refused)
    else if fails && (c.overflow.Bounded? || c.SendsLock()) then Ended(Refused)
    else Ended(Sent)
  }

  function ReadResult<V>(c: Config, role: Role, threw: bool, q: seq<V>): Outcome<V> {
    if threw then Ended(ThrewRole)
    else if q == [] then if role == Both && !c.policy.NoException? then Ended(ThrewDeadlock) else Blocks
    else Ended(Got(q[0]))
  }

  function TryReadResult<V>(role: Role, threw: bool, q: seq<V>, fails: bool): Outcome<V> {
    if threw then Ended(ThrewRole) else if q == [] || fails then Ended(Nothing) else Ended(Got(q[0]))
  }

  function AfterRead<V>(q: seq<V>, o: Outcome<V>): seq<V> {
    if o.Ended? && o.result.Got? && q != [] then q[1..] else q
  }

  /** The position of the first message. */
  function First<V>(c: Config, sh: Shared<V>): nat { if c.Tickets() then sh.readSeq else sh.head }

  /** Between calls: no mutex is held, the permits and the counter agree, and the messages lie in a row. */
  predicate AtRest<V>(c: Config, sh: Shared<V>) {
    && |sh.buffer| == c.capacity && sh.sendMutex == Free && sh.readMutex == Free
    && 0 <= sh.count <= c.capacity && sh.occupied == sh.count && sh.free >= 0
    && (c.overflow.Bounded? ==> sh.free + sh.occupied == c.capacity && !sh.overwriteMode)
    && (c.overflow.DropOldest? && c.category.MPMC? && sh.count > 0 ==> sh.overwriteMode)
    && (if c.Tickets() then sh.writeSeq == sh.readSeq + sh.count
        else sh.head < c.capacity && sh.tail == (sh.head + sh.count) % c.capacity)
  }

  function Contents<V>(c: Config, sh: Shared<V>): (q: seq<V>)
    requires AtRest(c, sh)
    ensures |q| == sh.count
  {
    Elements(sh.buffer, First(c, sh), sh.count)
  }

  /** The slot for the next message. */
  function Last<V>(c: Config, sh: Shared<V>): (k: nat)
    ensures c.Tickets() ==> k < c.capacity
  {
    if c.Tickets() then sh.writeSeq % c.capacity else sh.tail
  }

  /** The fields after v was stored, published and counted. */
  function Stored<V>(c: Config, sh: Shared<V>, v: V, free: int, publish: bool): Shared<V>
    requires Last(c, sh) < |sh.buffer|
  {
    sh.(free := free, occupied := if publish then sh.occupied + 1 else sh.occupied, count := sh.count + 1,
        buffer := sh.buffer[Last(c, sh) := v],
        tail := if c.Tickets() then sh.tail else Next(c, sh.tail),
        writeSeq := if c.Tickets() then sh.writeSeq + 1 else sh.writeSeq)
  }

  /** The fields after the first message was taken; left is what its slot holds then. */
  function Taken<V>(c: Config, sh: Shared<V>, left: V): Shared<V>
    requires |sh.buffer| == c.capacity
  {
    sh.(free := sh.free + 1, occupied := sh.occupied - 1, count := sh.count - 1,
        buffer := sh.buffer[First(c, sh) % c.capacity := left],
        head := if c.Tickets() then sh.head else Next(c, sh.head),
        readSeq := if c.Tickets() then sh.readSeq + 1 else sh.readSeq)
  }

  /** The fields after the head was moved over the first message to make room. */
  function Dropped<V>(c: Config, sh: Shared<V>): Shared<V> {
    sh.(count := sh.count - 1, head := Next(c, sh.head))
  }

  lemma StoredAppends<V>(c: Config, sh: Shared<V>, v: V, free: int)
    requires AtRest(c, sh) && sh.count < c.capacity && free >= 0
    requires c.overflow.Bounded? ==> free == sh.free - 1
    requires c.overflow.DropOldest? && c.category.MPMC? ==> sh.overwriteMode
    ensures Last(c, sh) < |sh.buffer|
    ensures AtRest(c, Stored(c, sh, v, free, true))
    ensures Contents(c, Stored(c, sh, v, free, true)) == Contents(c, sh) + [v]
  {
    WriteAppends(sh.buffer, First(c, sh), sh.count, v);
    if !c.Tickets() { NextRemainder(sh.head + sh.count, c.capacity); }
  }

  lemma TakenDropsFirst<V>(c: Config, sh: Shared<V>, left: V)
    requires AtRest(c, sh) && sh.count > 0
    ensures AtRest(c, Taken(c, sh, left))
    ensures Contents(c, sh) == [sh.buffer[First(c, sh) % c.capacity]] + Contents(c, Taken(c, sh, left))
  {
    hide Elements;
    StepDrops(sh.buffer, First(c, sh), sh.count);
    FirstElement(sh.buffer, First(c, sh), sh.count);
    WriteBefore(sh.buffer, First(c, sh), sh.count - 1, left);
    TakenAtRest(c, sh, left);
    if !c.Tickets() { FromSlot(Taken(c, sh, left).buffer, sh.head + 1, sh.count - 1); }
  }

  lemma TakenAtRest<V>(c: Config, sh: Shared<V>, left: V)
    requires AtRest(c, sh) && sh.count > 0
    ensures AtRest(c, Taken(c, sh, left))
  {
    hide Next;
    TailFromNext(c, sh.head, sh.count, Taken(c, sh, left).count);
  }

  lemma TailFromNext(c: Config, head: nat, n: nat, m: nat)
    requires n == m + 1
    ensures (Next(c, head) + m) % c.capacity == (head + n) % c.capacity && Next(c, head) < c.capacity
  {
    SameSlot(head + 1, m, c.capacity);
    assert head + 1 + m == head + n;
  }

  lemma FirstElement<V>(ring: seq<V>, start: nat, n: nat)
    requires |ring| > 0 && n > 0
    ensures Elements(ring, start, n) == [ring[start % |ring|]] + Elements(ring, start, n)[1..]
  {
  }

  /** Dropping and storing on a full ring replaces the first message by a last one. */
  lemma DroppedThenStored<V>(c: Config, sh: Shared<V>, v: V, free: int)
    requires AtRest(c, sh) && c.overflow.DropOldest? && sh.count == c.capacity && free >= 0
    requires c.category.MPMC? ==> sh.overwriteMode
    ensures Last(c, Dropped(c, sh)) < |sh.buffer|
    ensures AtRest(c, Stored(c, Dropped(c, sh), v, free, false))
    ensures Contents(c, Stored(c, Dropped(c, sh), v, free, false)) == Contents(c, sh)[1..] + [v]
  {
    var kept := sh.buffer[First(c, sh) % c.capacity];
    TakenDropsFirst(c, sh, kept);
    StoredAppends(c, Taken(c, sh, kept), v, free);
    assert Taken(c, sh, kept).buffer == sh.buffer;
    assert Stored(c, Taken(c, sh, kept), v, free, true) == Stored(c, Dropped(c, sh), v, free, false);
  }

  /** The fields after an overwriting send: a full ring drops first, unless its loop lost all its races. */
  function Overwritten<V>(c: Config, sh: Shared<V>, v: V, free: int, lostRaces: nat): Shared<V>
    requires c.overflow.DropOldest? && sh.tail < |sh.buffer|
  {
    if sh.count >= c.capacity && lostRaces < DROP_ATTEMPTS then Stored(c, Dropped(c, sh), v, free, false)
    else Stored(c, sh, v, free, true)
  }

  /** The ring is well formed afterwards exactly if it was not full or the loop dropped, and then it has enqueued. */
  lemma OverwritingEnqueues<V>(c: Config, sh: Shared<V>, v: V, free: int, lostRaces: nat)
    requires AtRest(c, sh) && c.overflow.DropOldest? && free >= 0 && (c.category.MPMC? ==> sh.overwriteMode)
    ensures sh.tail < |sh.buffer|
    ensures var sh' := Overwritten(c, sh, v, free, lostRaces);
            if sh.count == c.capacity && lostRaces >= DROP_ATTEMPTS
            then !AtRest(c, sh') && sh'.count == sh'.occupied == c.capacity + 1
            else AtRest(c, sh') && Contents(c, sh') == Enqueued(c, Contents(c, sh), v)
  {
    if sh.count < c.capacity {
      StoredAppends(c, sh, v, free);
    } else if lostRaces < DROP_ATTEMPTS {
      DroppedThenStored(c, sh, v, free);
    }
    hide Contents;
  }

  /** A reader draws a ticket exactly in the bounded MPMC ring. */
  lemma RestingRing<V>(c: Config, sh: Shared<V>)
    requires AtRest(c, sh) && sh.count > 0
    ensures |sh.buffer| == c.capacity && sh.readMutex == Free && sh.occupied == sh.count
    ensures c.category.MPMC? && !sh.overwriteMode <==> c.Tickets()
    ensures !c.Tickets() ==> sh.head < c.capacity && sh.head % c.capacity == sh.head
  {
    if !c.Tickets() { IsRemainder(sh.head, 0, c.capacity, sh.head); }
  }

  lemma WithinRing<V>(c: Config, sh: Shared<V>)
    requires AtRest(c, sh)
    ensures |Contents(c, sh)| == sh.count <= c.capacity
  {
  }

  /** What a read gets of the first message v: in a ring without tickets every failed compare-and-swap moves the
      emptied slot out once more. */
  function Gets<V>(c: Config, moved: V -> V, v: V, lostRaces: nat): V {
    if c.Tickets() then v else Worn(moved, lostRaces, v)
  }

  /** The queue as such a read finds it. */
  function AsRead<V>(c: Config, moved: V -> V, q: seq<V>, lostRaces: nat): seq<V> {
    if q == [] then [] else [Gets(c, moved, q[0], lostRaces)] + q[1..]
  }

  /** The queue after sending all of vs with no read in between. */
  function AllSent<V>(c: Config, q: seq<V>, vs: seq<V>): seq<V> {
    if vs == [] then q else Enqueued(c, AllSent(c, q, vs[..|vs| - 1]), vs[|vs| - 1])
  }

  function LastOf<V>(c: Config, q: seq<V>): seq<V> { if |q| <= c.capacity then q else q[|q| - c.capacity..] }

  lemma OneMore<V>(c: Config, s: seq<V>, v: V)
    ensures Enqueued(c, LastOf(c, s), v) == LastOf(c, s + [v])
  {
  }

  /** Any run of sends with no read leaves the last `capacity` messages, in the order they were sent. */
  lemma {:induction false} SendsLeaveTheLast<V>(c: Config, q: seq<V>, vs: seq<V>)
    requires |q| <= c.capacity
    ensures AllSent(c, q, vs) == LastOf(c, q + vs)
  {
    if vs != [] {
      hide LastOf, Enqueued;
      var front, v := vs[..|vs| - 1], vs[|vs| - 1];
      SendsLeaveTheLast(c, q, front);
      assert q + vs == (q + front) + [v];
      OneMore(c, q + front, v);
    } else {
      assert q + vs == q;
    }
  }
}
