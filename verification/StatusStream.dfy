/** The bounded status subscriber of `src/ipc.rs` together with a client that replays what it
    pops. `S` is the published state, `E` an event. */
module StatusStream {
  import opened Common

  datatype Item<+S, +E> =
    | Snapshot(sequence: nat, snapshot: S)
    | Event(sequence: nat, event: E)
    | ResyncRequired(expected: nat, observed: nat)

  datatype Error = InvalidCapacity

  datatype Outcome = Queued | MustResync | AwaitingResync

  datatype Subscriber<+S, +E> = Subscriber(capacity: nat, last: nat, resync: bool, queue: seq<Item<S, E>>)

  function Fresh<S, E>(capacity: nat, sequence: nat, snapshot: S): Subscriber<S, E> {
    Subscriber(capacity, sequence, false, [Snapshot(sequence, snapshot)])
  }

  /** A marker not yet popped follows the publisher. */
  function Marked<S, E>(u: Subscriber<S, E>, sequence: nat): Subscriber<S, E> {
    var queue := if u.queue != [] && u.queue[0].ResyncRequired?
                 then u.queue[0 := u.queue[0].(observed := Max(u.queue[0].observed, sequence))]
                 else u.queue;
    u.(last := Max(u.last, sequence), queue := queue)
  }

  function Published<S, E>(u: Subscriber<S, E>, sequence: nat, event: E): (Subscriber<S, E>, Outcome) {
    if u.resync then
      (Marked(u, sequence), AwaitingResync)
    else if u.last == U64_MAX then
      (Subscriber(u.capacity, sequence, true, [ResyncRequired(U64_MAX, sequence)]), MustResync)
    else if sequence != u.last + 1 || |u.queue| == u.capacity then
      (Subscriber(u.capacity, sequence, true, [ResyncRequired(u.last + 1, sequence)]), MustResync)
    else
      (u.(last := sequence, queue := u.queue + [Event(sequence, event)]), Queued)
  }

  function Popped<S, E>(u: Subscriber<S, E>): Subscriber<S, E> {
    if u.queue == [] then u else u.(queue := u.queue[1..])
  }

  // ---------------------------------------------------------------------------
  // Replay
  // ---------------------------------------------------------------------------

  /** What the publisher's state is at each sequence number, and the event that leads to it. */
  datatype Timeline<!S, !E> = Timeline(state: nat -> S, event: nat -> E, apply: (S, E) -> S)

  ghost predicate Faithful<S(!new), E(!new)>(t: Timeline<S, E>) {
    forall k: nat :: t.state(k + 1) == t.apply(t.state(k), t.event(k + 1))
  }

  datatype Client<+S> = Unsynced | Synced(sequence: nat, state: S)

  function Replay<S, E>(t: Timeline<S, E>, c: Client<S>, item: Item<S, E>): Client<S> {
    match item
    case Snapshot(k, s) => Synced(k, s)
    case Event(k, e) => if c.Synced? then Synced(k, t.apply(c.state, e)) else Unsynced
    case ResyncRequired(_, _) => Unsynced
  }

  /** `head` is the sequence number the publisher used last. */
  datatype System<+S, +E> = System(sub: Subscriber<S, E>, client: Client<S>, head: nat)

  /** Sequence numbers may be skipped, repeated or reordered. */
  datatype Op = Publish(sequence: nat) | Resync(sequence: nat) | Pop

  function Next<S, E>(t: Timeline<S, E>, y: System<S, E>, op: Op): System<S, E> {
    match op
    case Publish(k) => y.(sub := Published(y.sub, k, t.event(k)).0, head := k)
    case Resync(k) => y.(sub := Fresh(y.sub.capacity, k, t.state(k)), head := k)
    case Pop =>
      if y.sub.queue == [] then y
      else y.(sub := Popped(y.sub), client := Replay(t, y.client, y.sub.queue[0]))
  }

  function Exec<S, E>(t: Timeline<S, E>, y: System<S, E>, ops: seq<Op>): System<S, E> {
    if ops == [] then y else Next(t, Exec(t, y, ops[..|ops| - 1]), ops[|ops| - 1])
  }

  ghost predicate TrueTo<S, E>(t: Timeline<S, E>, item: Item<S, E>) {
    match item
    case Snapshot(k, s) => s == t.state(k)
    case Event(k, e) => e == t.event(k)
    case ResyncRequired(_, _) => false
  }

  /** The queued items, if any, take the client to `last` without a hole. */
  ghost predicate Chained<S, E>(t: Timeline<S, E>, y: System<S, E>) {
    var q := y.sub.queue;
    && (forall i :: 0 <= i < |q| ==> TrueTo(t, q[i]) && q[i].sequence + |q| - 1 - i == y.sub.last)
    && (forall i :: 1 <= i < |q| ==> q[i].Event?)
    && (q == [] ==> y.client.Synced? && y.client.sequence == y.sub.last)
    && (q != [] && q[0].Event? ==> y.client.Synced? && q[0].sequence == y.client.sequence + 1)
  }

  ghost predicate Good<S, E>(t: Timeline<S, E>, y: System<S, E>) {
    && 1 <= y.sub.capacity
    && |y.sub.queue| <= y.sub.capacity
    && (y.client.Synced? ==> y.client.state == t.state(y.client.sequence))
    && (!y.sub.resync ==> Chained(t, y) && y.sub.last == y.head)
    && (y.sub.resync ==>
          if y.sub.queue == [] then y.client.Unsynced?
          else |y.sub.queue| == 1 && y.sub.queue[0].ResyncRequired? && y.sub.queue[0].observed == y.sub.last)
  }

  lemma GoodStep<S(!new), E(!new)>(t: Timeline<S, E>, y: System<S, E>, op: Op)
    requires Faithful(t) && Good(t, y)
    ensures Good(t, Next(t, y, op))
  {
    if op.Pop? && y.sub.queue != [] && y.sub.queue[0].Event? {
      var k := y.client.sequence;
      assert TrueTo(t, y.sub.queue[0]);
      assert t.state(k + 1) == t.apply(t.state(k), t.event(k + 1));
    }
  }

  /** Main result. Over every run, what the client has replayed is the publisher's state at its
      sequence number; an event is only ever at the front for a client that holds the state
      just before it; a client that has drained a subscriber not awaiting resync is at the
      publisher's head; and the queue stays within its capacity. */
  lemma {:induction false} ReplayEqualsPublisher<S(!new), E(!new)>(t: Timeline<S, E>, capacity: nat,
                                                                   first: nat, ops: seq<Op>)
    requires Faithful(t) && capacity >= 1
    ensures var y := Exec(t, System(Fresh(capacity, first, t.state(first)), Unsynced, first), ops);
            && Good(t, y)
            && |y.sub.queue| <= capacity
            && (y.client.Synced? ==> y.client.state == t.state(y.client.sequence))
            && (y.sub.queue != [] && y.sub.queue[0].Event? ==>
                  y.client.Synced? && y.sub.queue[0].sequence == y.client.sequence + 1)
            && (y.sub.queue == [] && !y.sub.resync ==> y.client == Synced(y.head, t.state(y.head)))
            && (y.sub.queue == [] && y.sub.resync ==> y.client == Unsynced)
    decreases |ops|
  {
    var start := System(Fresh(capacity, first, t.state(first)), Unsynced, first);
    if ops != [] {
      var before := ops[..|ops| - 1];
      ReplayEqualsPublisher(t, capacity, first, before);
      GoodStep(t, Exec(t, start, before), ops[|ops| - 1]);
      CapacityKept(t, start, ops);
    }
  }

  lemma CapacityKept<S, E>(t: Timeline<S, E>, y: System<S, E>, ops: seq<Op>)
    ensures Exec(t, y, ops).sub.capacity == y.sub.capacity
  {
  }

  /** A published event is the successor of the last one and finds room. */
  ghost predicate InStep<S, E>(y: System<S, E>, op: Op) {
    op.Publish? ==> y.sub.last != U64_MAX && op.sequence == y.sub.last + 1 && |y.sub.queue| < y.sub.capacity
  }

  ghost predicate AllInStep<S, E>(t: Timeline<S, E>, y: System<S, E>, ops: seq<Op>) {
    ops == [] ||
    (AllInStep(t, y, ops[..|ops| - 1]) && InStep(Exec(t, y, ops[..|ops| - 1]), ops[|ops| - 1]))
  }

  lemma StepExactly<S(!new), E(!new)>(t: Timeline<S, E>, y: System<S, E>, op: Op)
    requires Faithful(t) && Good(t, y) && !op.Resync?
    ensures Good(t, Next(t, y, op))
    ensures Next(t, y, op).sub.resync <==> y.sub.resync || !InStep(y, op)
    ensures !y.sub.resync && InStep(y, op) && op.Publish? ==>
              Next(t, y, op).sub.queue == y.sub.queue + [Event(op.sequence, t.event(op.sequence))]
  {
    GoodStep(t, y, op);
  }

  /** Main result. Over every run without a resync, a subscriber comes to require one exactly if
      some event was out of order or found the queue full; until then every event is queued. */
  lemma {:induction false} ResyncExactly<S(!new), E(!new)>(t: Timeline<S, E>, y: System<S, E>, ops: seq<Op>)
    requires Faithful(t) && Good(t, y) && !y.sub.resync
    requires forall i :: 0 <= i < |ops| ==> !ops[i].Resync?
    ensures Good(t, Exec(t, y, ops))
    ensures Exec(t, y, ops).sub.resync <==> !AllInStep(t, y, ops)
    ensures AllInStep(t, y, ops) && ops != [] && ops[|ops| - 1].Publish? ==>
              var k := ops[|ops| - 1].sequence;
              Exec(t, y, ops).sub.queue == Exec(t, y, ops[..|ops| - 1]).sub.queue + [Event(k, t.event(k))]
    decreases |ops|
  {
    if ops != [] {
      var before := ops[..|ops| - 1];
      ResyncExactly(t, y, before);
      StepExactly(t, Exec(t, y, before), ops[|ops| - 1]);
    }
  }

  // ---------------------------------------------------------------------------
  // The subscriber
  // ---------------------------------------------------------------------------

  class StatusSubscriber<S, E> {
    const capacity: nat
    var lastSequence: nat
    var requiresResync: bool
    var queue: seq<Item<S, E>>

    function Value(): Subscriber<S, E>
      reads this
    {
      Subscriber(capacity, lastSequence, requiresResync, queue)
    }

    constructor (capacity: nat, sequence: nat, snapshot: S)
      requires capacity >= 1
      ensures Value() == Fresh(capacity, sequence, snapshot)
    {
      this.capacity := capacity;
      lastSequence, requiresResync, queue := sequence, false, [Snapshot(sequence, snapshot)];
    }

    /** `new`: a subscriber without room is refused. */
    static method New(capacity: nat, sequence: nat, snapshot: S) returns (r: Result<StatusSubscriber<S, E>, Error>)
      ensures r.Err? <==> capacity == 0
      ensures r.Ok? ==> fresh(r.value) && r.value.Value() == Fresh(capacity, sequence, snapshot)
    {
      if capacity == 0 {
        return Err(InvalidCapacity);
      }
      var subscriber := new StatusSubscriber<S, E>(capacity, sequence, snapshot);
      r := Ok(subscriber);
    }

    method Publish(sequence: nat, event: E) returns (outcome: Outcome)
      modifies this
      ensures (Value(), outcome) == Published(old(Value()), sequence, event)
    {
      if requiresResync {
        UpdateResyncMarker(sequence);
        return AwaitingResync;
      }
      if lastSequence == U64_MAX {
        RequireResync(U64_MAX, sequence);
        return MustResync;
      }
      var expected := lastSequence + 1;
      if sequence != expected || |queue| == capacity {
        RequireResync(expected, sequence);
        return MustResync;
      }
      lastSequence := sequence;
      queue := queue + [Event(sequence, event)];
      outcome := Queued;
    }

    method Resync(sequence: nat, snapshot: S)
      modifies this
      ensures Value() == Fresh(capacity, sequence, snapshot)
    {
      queue := [];
      lastSequence := sequence;
      requiresResync := false;
      queue := queue + [Snapshot(sequence, snapshot)];
    }

    method PopFront() returns (item: Option<Item<S, E>>)
      modifies this
      ensures Value() == Popped(old(Value()))
      ensures item == if old(queue) == [] then None else Some(old(queue)[0])
    {
      if queue == [] {
        return None;
      }
      item := Some(queue[0]);
      queue := queue[1..];
    }

    method RequireResync(expected: nat, observed: nat)
      modifies this
      ensures Value() == Subscriber(capacity, observed, true, [ResyncRequired(expected, observed)])
    {
      queue := [];
      requiresResync := true;
      lastSequence := observed;
      queue := queue + [ResyncRequired(expected, observed)];
    }

    method UpdateResyncMarker(observed: nat)
      modifies this
      ensures Value() == Marked(old(Value()), observed)
    {
      lastSequence := Max(lastSequence, observed);
      if queue != [] && queue[0].ResyncRequired? {
        queue := queue[0 := queue[0].(observed := Max(queue[0].observed, observed))];
      }
    }
  }
}
