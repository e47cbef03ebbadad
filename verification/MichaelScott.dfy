/** The Michael-Scott queue of lib/michael_scott_queue.hpp as an interleaved step system. */
module MichaelScott {
  import opened Counters

  // One step is one atomic load, store, compare-and-swap or fetch of one thread; memory is sequentially
  // consistent. Nodes live in a map from address to node, so an address that was freed can be handed out
  // again.

  const MAX_ATTEMPTS: nat := 64

  datatype Link = Null | To(node: nat)

  datatype Node<V> = Node(value: V, next: Link)

  /** StoreInternal retries for ever, TryStoreInternal counts its attempts. */
  datatype Loop = Forever | Attempt(used: nat)

  datatype Op<V> = Send(v: V) | TrySend(v: V) | TryEnqueue(v: V) | Read | TryRead | TryDequeue

  datatype Result<V> = NoCall | Sent | Refused | GaveUp | ThrewClosed | Got(value: V) | Nothing

  /** The control state of a thread, with the locals that are live there. */
  datatype Pc<V> =
    | Done(result: Result<V>)
    // SyncAndOverflowPrework: the wait predicate, then the closed test after it
    | SendSize(v: V)
    | SendClosed(v: V)
    | SendRecheck(v: V, admitted: bool)
    // TrySyncAndOverflowPrework
    | TrySendClosed(v: V, loop: Loop)
    | TrySendSize(v: V, loop: Loop)
    // StoreInternal and TryStoreInternal
    | Allocate(v: V, loop: Loop)
    | LoadTail(n: nat, loop: Loop)
    | LoadNext(n: nat, loop: Loop, last: nat)
    | CheckTail(n: nat, loop: Loop, last: nat, next: Link)
    | CasNext(n: nat, loop: Loop, last: nat)
    | HelpTail(n: nat, loop: Loop, last: nat, succ: nat)
    | SwingTail(n: nat, last: nat)
    | Discard(n: nat)
    | CountSend
    // SyncAndUnderflowPrework: the wait predicate, then the two loads after it
    | ReadSize
    | ReadClosed
    | ReadRecheckClosed
    | ReadRecheckSize
    // TrySyncAndUnderflowPrework
    | TryReadSize(once: bool)
    // PopMessage (repeats TryPopOnce) and TryDequeue (runs it once)
    | LoadHead(once: bool)
    | LoadLast(once: bool, first: nat)
    | LoadSecond(once: bool, first: nat, last: nat)
    | CheckHead(once: bool, first: nat, last: nat, next: Link)
    | HelpPop(once: bool, last: nat, succ: nat)
    | CasHead(once: bool, first: nat, succ: nat)
    | Take(first: nat, succ: nat)
    | Retire(first: nat, value: V)
    | CountRead(value: V)

  datatype State<V> = State(
    capacity: nat,
    head: nat,
    tail: nat,
    nodes: map<nat, Node<V>>,
    retired: seq<nat>,
    size: int,
    closed: bool,
    pc: map<nat, Pc<V>>)

  /** Begin starts a call on an idle thread, Alloc names the address the allocator hands out, WeakFail
      is a weak compare-and-swap that fails without cause, Shut is Close's store. */
  datatype Label<V> =
    | Begin(t: nat, op: Op<V>)
    | Alloc(t: nat, p: nat)
    | Step(t: nat)
    | WeakFail(t: nat)
    | Shut

  predicate Enabled<V>(s: State<V>, l: Label<V>) {
    match l
    case Begin(t, _) => t in s.pc && s.pc[t].Done?
    case Alloc(t, p) => t in s.pc && s.pc[t].Allocate? && p !in s.nodes
    case Step(t) => t in s.pc && !s.pc[t].Done? && !s.pc[t].Allocate?
    case WeakFail(t) => t in s.pc && (s.pc[t].CasNext? || s.pc[t].CasHead?)
    case Shut => true
  }

  /** The next field at an address; an address that is not allocated has none (Safety shows it is never asked). */
  function NextAt<V>(s: State<V>, p: nat): Link {
    if p in s.nodes then s.nodes[p].next else Null
  }

  /** Where a failed pass of the store loop continues. */
  function Again<V>(n: nat, loop: Loop): Pc<V> {
    match loop
    case Forever => LoadTail(n, Forever)
    case Attempt(used) => if used + 1 < MAX_ATTEMPTS then LoadTail(n, Attempt(used + 1)) else Discard(n)
  }

  /** Where a TryPopOnce that returned false continues. */
  function PopAgain<V>(once: bool): Pc<V> {
    if once then Done(Nothing) else LoadHead(false)
  }

  function Start<V>(op: Op<V>): Pc<V> {
    match op
    case Send(v) => SendSize(v)
    case TrySend(v) => TrySendClosed(v, Forever)
    case TryEnqueue(v) => TrySendClosed(v, Attempt(0))
    case Read => ReadSize
    case TryRead => TryReadSize(false)
    case TryDequeue => TryReadSize(true)
  }

  /** The steps before a node is touched: each is one load of current_size_ or is_closed. */
  function AdmitTarget<V>(s: State<V>, pc: Pc<V>): Pc<V> {
    match pc
    case SendSize(v) => if SizeT(s.size) < s.capacity then SendRecheck(v, true) else SendClosed(v)
    case SendClosed(v) => if s.closed then SendRecheck(v, false) else SendSize(v)
    case SendRecheck(v, _) => if s.closed then Done(ThrewClosed) else Allocate(v, Forever)
    case TrySendClosed(v, loop) => if s.closed then Done(Refused) else TrySendSize(v, loop)
    case TrySendSize(v, loop) => if SizeT(s.size) < s.capacity then Allocate(v, loop) else Done(Refused)
    case ReadSize => if SizeT(s.size) > 0 then ReadRecheckClosed else ReadClosed
    case ReadClosed => if s.closed then ReadRecheckClosed else ReadSize
    case ReadRecheckClosed => if s.closed then ReadRecheckSize else LoadHead(false)
    case ReadRecheckSize => if SizeT(s.size) == 0 then Done(ThrewClosed) else LoadHead(false)
    case TryReadSize(once) => if SizeT(s.size) > 0 then LoadHead(once) else Done(Nothing)
    case _ => pc
  }

  function StoreTarget<V>(s: State<V>, pc: Pc<V>): Pc<V> {
    match pc
    case LoadTail(n, loop) => LoadNext(n, loop, s.tail)
    case LoadNext(n, loop, last) => CheckTail(n, loop, last, NextAt(s, last))
    case CheckTail(n, loop, last, next) =>
      if last != s.tail then Again(n, loop)
      else if next.Null? then CasNext(n, loop, last)
      else HelpTail(n, loop, last, next.node)
    case CasNext(n, loop, last) => if IsLast(s, last) then SwingTail(n, last) else Again(n, loop)
    case HelpTail(n, loop, _, _) => Again(n, loop)
    case SwingTail(_, _) => CountSend
    case Discard(_) => Done(GaveUp)
    case CountSend => Done(Sent)
    case _ => pc
  }

  function PopTarget<V>(s: State<V>, pc: Pc<V>): Pc<V> {
    match pc
    case LoadHead(once) => LoadLast(once, s.head)
    case LoadLast(once, first) => LoadSecond(once, first, s.tail)
    case LoadSecond(once, first, last) => CheckHead(once, first, last, NextAt(s, first))
    case CheckHead(once, first, last, next) =>
      if first != s.head then PopAgain(once)
      else if first == last then
        if next.Null? then PopAgain(once) else HelpPop(once, last, next.node)
      else if next.Null? then PopAgain(once)
      else CasHead(once, first, next.node)
    case HelpPop(once, _, _) => PopAgain(once)
    case CasHead(once, first, succ) => if s.head == first then Take(first, succ) else PopAgain(once)
    case Take(first, succ) => if succ in s.nodes then Retire(first, s.nodes[succ].value) else pc
    case Retire(_, value) => CountRead(value)
    case CountRead(value) => Done(Got(value))
    case _ => pc
  }

  predicate InAdmission<V>(pc: Pc<V>) {
    || pc.SendSize? || pc.SendClosed? || pc.SendRecheck? || pc.TrySendClosed? || pc.TrySendSize?
    || pc.ReadSize? || pc.ReadClosed? || pc.ReadRecheckClosed? || pc.ReadRecheckSize? || pc.TryReadSize?
  }

  predicate InStore<V>(pc: Pc<V>) {
    || pc.LoadTail? || pc.LoadNext? || pc.CheckTail? || pc.CasNext? || pc.HelpTail? || pc.SwingTail?
    || pc.Discard? || pc.CountSend?
  }

  /** Where the moving thread goes. */
  function Target<V>(s: State<V>, l: Label<V>): Pc<V>
    requires Enabled(s, l) && !l.Shut?
  {
    match l
    case Begin(_, op) => Start(op)
    case Alloc(t, p) => LoadTail(p, s.pc[t].loop)
    case Step(t) =>
      var pc := s.pc[t];
      if InAdmission(pc) then AdmitTarget(s, pc) else if InStore(pc) then StoreTarget(s, pc) else PopTarget(s, pc)
    case WeakFail(t) =>
      var pc := s.pc[t];
      if pc.CasNext? then Again(pc.n, pc.loop) else PopAgain(pc.once)
  }

  /** What a step does to shared memory; a step that only loads, or whose compare-and-swap fails, is silent. */
  datatype Effect<V> =
    | Silent
    | Allocates(p: nat, v: V)
    | Links(n: nat, last: nat)
    | Swings(succ: nat)
    | Unlinks(first: nat, succ: nat)
    | Retires(first: nat)
    | Frees(n: nat)
    | Counts(delta: int)
    | Closes

  predicate IsLast<V>(s: State<V>, p: nat) {
    p in s.nodes && s.nodes[p].next.Null?
  }

  function CasTail<V>(s: State<V>, expected: nat, desired: nat): Effect<V> {
    if s.tail == expected then Swings(desired) else Silent
  }

  function EffectOf<V>(s: State<V>, l: Label<V>): Effect<V>
    requires Enabled(s, l)
  {
    match l
    case Shut => Closes
    case Alloc(t, p) => Allocates(p, s.pc[t].v)
    case Step(t) =>
      (match s.pc[t]
       case CasNext(n, _, last) => if IsLast(s, last) then Links(n, last) else Silent
       case SwingTail(n, last) => CasTail(s, last, n)
       case HelpTail(_, _, last, succ) => CasTail(s, last, succ)
       case Discard(n) => Frees(n)
       case CountSend => Counts(1)
       case HelpPop(_, last, succ) => CasTail(s, last, succ)
       case CasHead(_, first, succ) => if s.head == first then Unlinks(first, succ) else Silent
       case Retire(first, _) => Retires(first)
       case CountRead(_) => Counts(-1)
       case _ => Silent)
    case _ => Silent
  }

  function Perform<V>(s: State<V>, e: Effect<V>): State<V> {
    match e
    case Silent => s
    case Allocates(p, v) => s.(nodes := s.nodes[p := Node(v, Null)])
    case Links(n, last) => if last in s.nodes then s.(nodes := s.nodes[last := s.nodes[last].(next := To(n))]) else s
    case Swings(succ) => s.(tail := succ)
    case Unlinks(_, succ) => s.(head := succ)
    case Retires(first) => s.(retired := s.retired + [first])
    case Frees(n) => s.(nodes := s.nodes - {n})
    case Counts(delta) => s.(size := s.size + delta)
    case Closes => s.(closed := true)
  }

  function Apply<V>(s: State<V>, l: Label<V>): State<V>
    requires Enabled(s, l)
  {
    Perform(s, EffectOf(s, l)).(pc := if l.Shut? then s.pc else s.pc[l.t := Target(s, l)])
  }

  /** The constructor: one dummy node, whose value is whatever a default-constructed message is. */
  predicate Initial<V>(s: State<V>) {
    && s.capacity >= 1
    && s.head == s.tail
    && s.nodes.Keys == {s.head} && s.nodes[s.head].next.Null?
    && s.retired == [] && s.size == 0 && !s.closed
    && forall t | t in s.pc :: s.pc[t] == Done(NoCall)
  }

  /** A run: a schedule of labels together with the states it goes through. */
  ghost predicate IsRun<V>(r: seq<State<V>>, ls: seq<Label<V>>) {
    && |r| == |ls| + 1
    && Initial(r[0])
    && forall i | 0 <= i < |ls| :: Enabled(r[i], ls[i]) && r[i + 1] == Apply(r[i], ls[i])
  }

  /** A run as one value. */
  datatype Story<V> = Story(states: seq<State<V>>, labels: seq<Label<V>>) {
    ghost predicate Runs() { IsRun(states, labels) }

    ghost function Last(): State<V>
      requires Runs()
    {
      states[|labels|]
    }
  }

  lemma Begins<V>(s: State<V>) returns (h: Story<V>)
    requires Initial(s)
    ensures h.Runs() && h.Last() == s
  {
    h := Story([s], []);
  }

  lemma Advance<V>(h: Story<V>, l: Label<V>) returns (h': Story<V>)
    requires h.Runs() && Enabled(h.Last(), l)
    ensures h'.Runs() && h'.Last() == Apply(h.Last(), l) && h'.labels == h.labels + [l]
  {
    hide Apply, Enabled, Initial;
    h' := Story(h.states + [Apply(h.Last(), l)], h.labels + [l]);
    forall i | 0 <= i < |h'.labels|
      ensures Enabled(h'.states[i], h'.labels[i]) && h'.states[i + 1] == Apply(h'.states[i], h'.labels[i])
    {
      if i < |h.labels| {
        assert Enabled(h.states[i], h.labels[i]) && h.states[i + 1] == Apply(h.states[i], h.labels[i]);
      }
    }
  }

  /** The addresses met by following next from p; cut at the first address met twice or not allocated. */
  ghost function Walk<V>(nodes: map<nat, Node<V>>, p: nat): seq<nat>
    decreases nodes.Keys
  {
    if p !in nodes then []
    else [p] + match nodes[p].next
               case Null => []
               case To(q) => Walk(nodes - {p}, q)
  }

  ghost function Values<V>(nodes: map<nat, Node<V>>, ps: seq<nat>): seq<V>
    requires forall p | p in ps :: p in nodes
  {
    seq(|ps|, i requires 0 <= i < |ps| => nodes[ps[i]].value)
  }

  lemma {:induction false} WalkIsAllocated<V>(nodes: map<nat, Node<V>>, p: nat)
    ensures forall q | q in Walk(nodes, p) :: q in nodes
    decreases nodes.Keys
  {
    if p in nodes && nodes[p].next.To? {
      WalkIsAllocated(nodes - {p}, nodes[p].next.node);
    }
  }

  /** The messages in the list: the values of the nodes behind the dummy at head_. */
  ghost function Contents<V>(s: State<V>): seq<V> {
    WalkIsAllocated(s.nodes, s.head);
    var chain := Walk(s.nodes, s.head);
    if chain == [] then [] else Values(s.nodes, chain[1..])
  }
}
