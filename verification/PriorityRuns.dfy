/** Any sequence of calls on the priority queue: who is left waiting, and what ends the waiting. */
module PriorityRuns {
  import opened Roles
  import opened PrioritySpec
  import opened PriorityQueue

  datatype Event<V> = Calls(call: Call<V>) | Closes

  /** What the queue was when the calls began. */
  datatype Scene<!V> =
    Scene(capacity: nat, comp: (V, V) -> bool, category: Category, policy: Policy, q: seq<V>, closed: bool,
          roles: map<nat, Role>)

  predicate IsSend<V>(call: Call<V>) { call.Send? || call.TrySend? }

  /** The messages that wait after these events had these outcomes. */
  function Held<V>(s: Scene<V>, events: seq<Event<V>>, outcomes: seq<Outcome<V>>): seq<V>
    requires |events| == |outcomes|
  {
    if events == [] then s.q
    else
      var n := |events| - 1;
      var before := Held(s, events[..n], outcomes[..n]);
      if outcomes[n].Sent? && events[n].Calls? && IsSend(events[n].call) then before + [events[n].call.v]
      else if outcomes[n].Got? && before != [] then Dequeued(s.comp, before)
      else before
  }

  /** The roles recorded after these events. */
  function RolesBy<V>(s: Scene<V>, events: seq<Event<V>>): map<nat, Role> {
    if events == [] then s.roles
    else
      var n := |events| - 1;
      var before := RolesBy(s, events[..n]);
      match events[n]
      case Closes => before
      case Calls(call) =>
        before[call.t := Account(s.policy, RoleOf(before, call.t), if IsSend(call) then Producer else Consumer)]
  }

  predicate ShutBy<V>(s: Scene<V>, events: seq<Event<V>>) {
    s.closed || exists i :: 0 <= i < |events| && events[i].Closes?
  }

  /** Call i is refused for its role, or warned, as the events before it have it. */
  predicate Excepted<V>(s: Scene<V>, events: seq<Event<V>>, i: nat)
    requires i < |events| && events[i].Calls?
  {
    var call := events[i].call;
    var role := if IsSend(call) then Producer else Consumer;
    || Throws(s.policy, RoleOf(RolesBy(s, events[..i]), call.t), role)
    || (s.category in (if IsSend(call) then {SPSC, MPSC} else {SPSC, SPMC}) && !s.policy.NoException?
        && Account(s.policy, RoleOf(RolesBy(s, events[..i]), call.t), role) == Both)
  }

  /** Outcome i, when call i is a blocking one: it waits exactly on an open queue with no room, or no message, for it,
      and it never answers as the try form does. */
  ghost predicate WaitsExactly<V>(s: Scene<V>, events: seq<Event<V>>, outcomes: seq<Outcome<V>>, i: nat)
    requires i < |outcomes| <= |events|
  {
    var q, o := Held(s, events[..i], outcomes[..i]), outcomes[i];
    && (events[i].Calls? && events[i].call.Send? ==>
          && o != Refused && o != Nothing
          && (o == Blocks <==> |q| == s.capacity && !ShutBy(s, events[..i]) && !Excepted(s, events, i)))
    && (events[i].Calls? && events[i].call.Read? ==>
          && o != Refused && o != Nothing
          && (o == Blocks <==> q == [] && !ShutBy(s, events[..i]) && !Excepted(s, events, i)))
    && (events[i].Calls? && (events[i].call.TrySend? || events[i].call.TryRead?) ==> o != Blocks)
  }

  /** The queue agrees with the scene after these events. */
  ghost predicate Agrees<V(!new)>(queue: PriorityQueue<V>, s: Scene<V>, events: seq<Event<V>>,
                                  outcomes: seq<Outcome<V>>)
    requires |events| == |outcomes|
    reads queue
  {
    && queue.capacity == s.capacity && queue.comp == s.comp && queue.category == s.category && queue.policy == s.policy
    && queue.Queue() == Held(s, events, outcomes) && queue.closed == ShutBy(s, events)
    && forall u :: RoleOf(queue.roles, u) == RoleOf(RolesBy(s, events), u)
  }

  /** One more event. */
  lemma Next<V>(s: Scene<V>, events: seq<Event<V>>, outcomes: seq<Outcome<V>>, event: Event<V>, o: Outcome<V>)
    requires |events| == |outcomes|
    ensures (events + [event])[..|events|] == events && (outcomes + [o])[..|events|] == outcomes
    ensures var before := Held(s, events, outcomes);
            Held(s, events + [event], outcomes + [o]) ==
            if o.Sent? && event.Calls? && IsSend(event.call) then before + [event.call.v]
            else if o.Got? && before != [] then Dequeued(s.comp, before)
            else before
    ensures var before := RolesBy(s, events);
            RolesBy(s, events + [event]) ==
            if event.Closes? then before
            else before[event.call.t := Account(s.policy, RoleOf(before, event.call.t),
                                                if IsSend(event.call) then Producer else Consumer)]
    ensures ShutBy(s, events + [event]) <==> ShutBy(s, events) || event.Closes?
  {
    assert (events + [event])[..|events|] == events && (outcomes + [o])[..|events|] == outcomes;
    assert (events + [event])[|events|] == event;
  }

  /** A send, with what it does to the scene. */
  method PerformSend<V(!new)>(queue: PriorityQueue<V>, ghost s: Scene<V>, ghost events: seq<Event<V>>,
                              ghost outcomes: seq<Outcome<V>>, call: Call<V>)
    returns (o: Outcome<V>)
    requires queue.Valid() && |events| == |outcomes| && Agrees(queue, s, events, outcomes) && IsSend(call)
    modifies queue
    ensures queue.Valid() && Agrees(queue, s, events + [Calls(call)], outcomes + [o])
    ensures WaitsExactly(s, events + [Calls(call)], outcomes + [o], |events|)
  {
    hide StrictWeakOrder, Arrival, Best, Without, Values, Throws, Account, Dequeued, Held, RolesBy, ShutBy;
    match call {
      case Send(t, v, throws) => o := queue.Send(t, v, throws);
      case TrySend(t, v, throws) => o := queue.TrySend(t, v, throws);
    }
    Next(s, events, outcomes, Calls(call), o);
  }

  /** A read; one whose message throws may leave no heap behind. */
  method PerformRead<V(!new)>(queue: PriorityQueue<V>, ghost s: Scene<V>, ghost events: seq<Event<V>>,
                              ghost outcomes: seq<Outcome<V>>, call: Call<V>)
    returns (o: Outcome<V>)
    requires queue.Valid() && |events| == |outcomes| && Agrees(queue, s, events, outcomes) && !IsSend(call)
    modifies queue
    ensures Agrees(queue, s, events + [Calls(call)], outcomes + [o])
    ensures WaitsExactly(s, events + [Calls(call)], outcomes + [o], |events|)
    ensures queue.Valid() <==> o != ThrewMessage || |old(queue.Queue())| == 1
  {
    hide StrictWeakOrder, Arrival, Best, Without, Values, Throws, Account, Dequeued, Held, RolesBy, ShutBy;
    match call {
      case Read(t, throws) => o := queue.Read(t, throws);
      case TryRead(t, throws) => o := queue.TryRead(t, throws);
    }
    Next(s, events, outcomes, Calls(call), o);
  }

  lemma CloseWaits<V>(s: Scene<V>, events: seq<Event<V>>, outcomes: seq<Outcome<V>>, i: nat)
    requires i < |outcomes| <= |events| && events[i].Closes?
    ensures WaitsExactly(s, events, outcomes, i)
  {
  }

  /** broken says that no heap is left. */
  method PerformEvent<V(!new)>(queue: PriorityQueue<V>, ghost s: Scene<V>, ghost events: seq<Event<V>>,
                               ghost outcomes: seq<Outcome<V>>, event: Event<V>)
    returns (o: Outcome<V>, broken: bool)
    requires queue.Valid() && |events| == |outcomes| && Agrees(queue, s, events, outcomes)
    modifies queue
    ensures Agrees(queue, s, events + [event], outcomes + [o])
    ensures WaitsExactly(s, events + [event], outcomes + [o], |events|)
    ensures (broken <==> !queue.Valid()) && (broken ==> o == ThrewMessage)
  {
    hide StrictWeakOrder, Arrival, Values, Throws, Account, Dequeued, WaitsExactly, Held, RolesBy, ShutBy;
    queue.Sizes();
    var lone := queue.size == 1;
    o, broken := Nothing, false;
    match event {
      case Closes =>
        queue.Close();
        Next(s, events, outcomes, event, o);
        CloseWaits(s, events + [event], outcomes + [o], |events|);
      case Calls(call) =>
        if IsSend(call) {
          o := PerformSend(queue, s, events, outcomes, call);
        } else {
          o := PerformRead(queue, s, events, outcomes, call);
          broken := o.ThrewMessage? && !lone;
        }
    }
  }

  lemma WaitsStays<V>(s: Scene<V>, events: seq<Event<V>>, outcomes: seq<Outcome<V>>, o: Outcome<V>, i: nat)
    requires i < |outcomes| < |events| && WaitsExactly(s, events[..|outcomes|], outcomes, i)
    ensures WaitsExactly(s, events[..|outcomes| + 1], outcomes + [o], i)
  {
    hide Held, RolesBy, ShutBy, Throws, Account;
    var n := |outcomes|;
    assert events[..n + 1][..i] == events[..n][..i] && (outcomes + [o])[..i] == outcomes[..i];
  }

  /** Any sequence of calls by any threads, with Close at any place in it, up to a read whose message throws and leaves
      no heap behind: Send is left waiting exactly when it finds the queue open and full, Read exactly when it finds it
      open and empty, unless they throw for their role or are warned; they never answer as the try forms do, and the try
      forms never wait. */
  method Serve<V(!new)>(queue: PriorityQueue<V>, events: seq<Event<V>>) returns (outcomes: seq<Outcome<V>>)
    requires queue.Valid()
    modifies queue
    ensures |outcomes| <= |events|
    ensures var s := old(Scene(queue.capacity, queue.comp, queue.category, queue.policy, queue.Queue(), queue.closed,
                               queue.roles));
            && Agrees(queue, s, events[..|outcomes|], outcomes)
            && forall i | 0 <= i < |outcomes| :: WaitsExactly(s, events[..|outcomes|], outcomes, i)
    ensures |outcomes| < |events| ==> outcomes != [] && outcomes[|outcomes| - 1] == ThrewMessage && !queue.Valid()
  {
    hide StrictWeakOrder, Arrival, Values, Throws, Account, Dequeued, WaitsExactly;
    ghost var s := Scene(queue.capacity, queue.comp, queue.category, queue.policy, queue.Queue(), queue.closed,
                         queue.roles);
    outcomes := [];
    var broken := false;
    while |outcomes| < |events| && !broken
      invariant |outcomes| <= |events| && Agrees(queue, s, events[..|outcomes|], outcomes)
      invariant forall i | 0 <= i < |outcomes| :: WaitsExactly(s, events[..|outcomes|], outcomes, i)
      invariant broken <==> !queue.Valid()
      invariant broken ==> outcomes != [] && outcomes[|outcomes| - 1] == ThrewMessage
      decreases |events| - |outcomes|, !broken
    {
      ghost var n, before := |outcomes|, outcomes;
      var o;
      assert events[..n + 1] == events[..n] + [events[n]];
      o, broken := PerformEvent(queue, s, events[..n], before, events[|outcomes|]);
      outcomes := outcomes + [o];
      ghost var now := events[..n + 1];
      forall i | 0 <= i < n ensures WaitsExactly(s, now, outcomes, i) {
        WaitsStays(s, events, before, o, i);
      }
    }
  }

  /** A Read that is left waiting gets the message of the next Send when it is repeated. */
  method SendEndsWaiting<V(!new)>(queue: PriorityQueue<V>, t: nat, u: nat, v: V)
    returns (first: Outcome<V>, sent: Outcome<V>, second: Outcome<V>)
    requires queue.Valid() && t != u
    modifies queue
    ensures first == Blocks ==> sent in {Sent, ThrewRole} && (sent == Sent ==> second == Got(v) && queue.Queue() == [])
  {
    hide StrictWeakOrder, Arrival, Values, Best;
    first := queue.Read(t, false);
    sent, second := first, first;
    if first.Blocks? {
      queue.Sizes();
      sent := queue.Send(u, v, false);
      if sent.Sent? {
        OnlyOne(queue.comp, v);
        second := queue.Read(t, false);
      }
    }
  }

  lemma OnlyOne<V>(comp: (V, V) -> bool, v: V)
    ensures Best(comp, [v]) == 0 && Dequeued(comp, [v]) == []
  {
  }

  /** A Send that is left waiting goes through after the next Read when it is repeated. */
  method ReadEndsWaiting<V(!new)>(queue: PriorityQueue<V>, t: nat, u: nat, v: V)
    returns (first: Outcome<V>, got: Outcome<V>, second: Outcome<V>)
    requires queue.Valid() && t != u
    modifies queue
    ensures first == Blocks ==> got.Got? || got == ThrewRole
    ensures first == Blocks && got.Got? ==>
              && old(queue.Queue()) != [] && second == Sent
              && queue.Queue() == Dequeued(queue.comp, old(queue.Queue())) + [v]
  {
    hide StrictWeakOrder, Arrival, Values, Best;
    first := queue.Send(t, v, false);
    got, second := first, first;
    if first.Blocks? {
      queue.Sizes();
      got := queue.Read(u, false);
      if got.Got? { second := queue.Send(t, v, false); }
    }
  }
}
