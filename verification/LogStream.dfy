/** The bounded log subscriber of `src/ipc.rs`. */
module LogStream {
  import opened Common
  import opened Utf8

  const SUBSCRIBER_MAX_BYTES: nat := 4 * 1024 * 1024

  datatype Record = Record(sequence: nat, message: Bytes)

  datatype Item = Line(record: Record) | Gap(after: Option<nat>, latest: nat)

  datatype Error = InvalidCapacity

  datatype Outcome = Queued | MustReadTail | AwaitingTail

  datatype Subscriber = Subscriber(capacity: nat, observed: Option<nat>, delivered: Option<nat>, awaiting: bool,
                                   gaps: nat, bytes: nat, queue: seq<Item>)

  function Fresh(capacity: nat, after: Option<nat>): Subscriber {
    Subscriber(capacity, after, after, false, 0, 0, [])
  }

  function Opened(u: Subscriber, latest: nat): Subscriber {
    u.(queue := [Gap(u.delivered, latest)], bytes := 0, observed := Some(latest), awaiting := true,
       gaps := SaturatingAdd(u.gaps, 1))
  }

  function Marked(u: Subscriber, latest: nat): Subscriber {
    if u.queue != [] && u.queue[0].Gap?
    then u.(queue := u.queue[0 := u.queue[0].(latest := Max(u.queue[0].latest, latest))])
    else u
  }

  predicate Follows(observed: Option<nat>, sequence: nat) {
    observed.None? || (observed.value != U64_MAX && sequence == observed.value + 1)
  }

  function Published(u: Subscriber, r: Record): (Subscriber, Outcome) {
    if u.awaiting then
      var observed := if u.observed.None? then r.sequence else Max(u.observed.value, r.sequence);
      (Marked(u.(observed := Some(observed)), r.sequence), AwaitingTail)
    else if !Follows(u.observed, r.sequence) || |u.queue| == u.capacity ||
            SaturatingAdd(u.bytes, |r.message|) > SUBSCRIBER_MAX_BYTES then
      (Opened(u, r.sequence), MustReadTail)
    else
      (u.(observed := Some(r.sequence), bytes := SaturatingAdd(u.bytes, |r.message|), queue := u.queue + [Line(r)]),
       Queued)
  }

  function Popped(u: Subscriber): Subscriber {
    if u.queue == [] then u
    else
      match u.queue[0]
      case Line(r) =>
        u.(queue := u.queue[1..], delivered := Some(r.sequence), bytes := SaturatingSub(u.bytes, |r.message|))
      case Gap(_, _) => u.(queue := u.queue[1..])
  }

  function TailSent(u: Subscriber, latest: Option<nat>): Subscriber {
    u.(queue := [], bytes := 0, observed := latest, delivered := latest, awaiting := false)
  }

  function GapMarked(u: Subscriber, latest: nat): Subscriber {
    if u.awaiting then Marked(u, latest) else Opened(u, latest)
  }

  // ---------------------------------------------------------------------------
  // Runs
  // ---------------------------------------------------------------------------

  datatype Op = Publish(record: Record) | Pop | MarkTailSent(tail: Option<nat>) | MarkGap(latest: nat)

  /** Since the last tail: `base` the sequence it ended at, `published` the records offered,
      `delivered` the records popped, `reported` the sequence numbers heard since the gap opened;
      and the number of gaps ever opened. */
  datatype System = System(sub: Subscriber, base: Option<nat>, published: seq<Record>, delivered: seq<Record>,
                           reported: set<nat>, gaps: nat)

  function Next(y: System, op: Op): System {
    match op
    case Publish(r) =>
      y.(sub := Published(y.sub, r).0, published := y.published + [r],
         reported := (if y.sub.awaiting then y.reported else {}) + {r.sequence},
         gaps := if Published(y.sub, r).1 == MustReadTail then y.gaps + 1 else y.gaps)
    case Pop =>
      y.(sub := Popped(y.sub),
         delivered := if y.sub.queue != [] && y.sub.queue[0].Line? then y.delivered + [y.sub.queue[0].record]
                      else y.delivered)
    case MarkTailSent(latest) => System(TailSent(y.sub, latest), latest, [], [], {}, y.gaps)
    case MarkGap(latest) =>
      y.(sub := GapMarked(y.sub, latest), reported := (if y.sub.awaiting then y.reported else {}) + {latest},
         gaps := if y.sub.awaiting then y.gaps else y.gaps + 1)
  }

  function Exec(y: System, ops: seq<Op>): System {
    if ops == [] then y else Next(Exec(y, ops[..|ops| - 1]), ops[|ops| - 1])
  }

  function Lines(q: seq<Item>): seq<Record> {
    if q == [] then [] else (if q[0].Line? then [q[0].record] else []) + Lines(q[1..])
  }

  function QueueBytes(q: seq<Item>): nat {
    if q == [] then 0 else (if q[0].Line? then |q[0].record.message| else 0) + QueueBytes(q[1..])
  }

  /** Consecutive sequence numbers, starting after `base` when there is one. */
  ghost predicate Consecutive(base: Option<nat>, rs: seq<Record>) {
    && (rs != [] && base.Some? ==> rs[0].sequence == base.value + 1)
    && (forall i :: 1 <= i < |rs| ==> rs[i].sequence == rs[i - 1].sequence + 1)
  }

  function LastOf(base: Option<nat>, rs: seq<Record>): Option<nat> {
    if rs == [] then base else Some(rs[|rs| - 1].sequence)
  }

  /** A gap is announced: its marker, until popped, is all that is queued. */
  ghost predicate Announced(y: System) {
    var u := y.sub;
    |u.queue| <= 1 &&
    (u.queue != [] ==>
       u.queue[0].Gap? && u.queue[0].after == u.delivered &&
       u.queue[0].latest in y.reported && forall k :: k in y.reported ==> k <= u.queue[0].latest)
  }

  /** No gap: everything published is delivered or queued, in order and without a hole. */
  ghost predicate Complete(y: System) {
    var u := y.sub;
    && (forall i :: 0 <= i < |u.queue| ==> u.queue[i].Line?)
    && y.published == y.delivered + Lines(u.queue)
    && Consecutive(y.base, y.published)
    && u.observed == LastOf(y.base, y.published)
  }

  ghost predicate Good(y: System) {
    var u := y.sub;
    && 1 <= u.capacity
    && |u.queue| <= u.capacity
    && u.bytes == QueueBytes(u.queue) <= SUBSCRIBER_MAX_BYTES
    && u.gaps == Min(y.gaps, U64_MAX)
    && y.delivered <= y.published
    && Consecutive(y.base, y.delivered)
    && u.delivered == LastOf(y.base, y.delivered)
    && (if u.awaiting then Announced(y) else Complete(y))
  }

  lemma {:induction false} AppendLine(q: seq<Item>, r: Record)
    ensures Lines(q + [Line(r)]) == Lines(q) + [r] && QueueBytes(q + [Line(r)]) == QueueBytes(q) + |r.message|
    decreases |q|
  {
    var longer := q + [Line(r)];
    if q == [] {
      assert longer == [Line(r)] && longer[1..] == [];
    } else {
      AppendLine(q[1..], r);
      assert longer[1..] == q[1..] + [Line(r)] && longer[0] == q[0];
    }
  }

  lemma ConsecutiveGrows(base: Option<nat>, rs: seq<Record>, r: Record)
    requires Consecutive(base, rs) && Follows(LastOf(base, rs), r.sequence)
    ensures Consecutive(base, rs + [r]) && LastOf(base, rs + [r]) == Some(r.sequence)
  {
  }

  lemma GoodQueued(y: System, r: Record)
    requires Good(y) && Published(y.sub, r).1 == Queued
    ensures Good(Next(y, Publish(r)))
  {
    AppendLine(y.sub.queue, r);
    ConsecutiveGrows(y.base, y.published, r);
    var z := Next(y, Publish(r));
    assert z.sub.queue == y.sub.queue + [Line(r)];
    assert y.delivered + (Lines(y.sub.queue) + [r]) == y.published + [r];
    assert Complete(z);
  }

  lemma GoodRefused(y: System, r: Record)
    requires Good(y) && Published(y.sub, r).1 != Queued
    ensures Good(Next(y, Publish(r)))
  {
    assert QueueBytes([Gap(y.sub.delivered, r.sequence)]) == 0;
  }

  lemma GoodPop(y: System)
    requires Good(y)
    ensures Good(Next(y, Pop))
  {
    var q := y.sub.queue;
    if q != [] && q[0].Line? {
      assert Lines(q) == [q[0].record] + Lines(q[1..]);
      assert y.delivered + Lines(q) == y.delivered + [q[0].record] + Lines(q[1..]);
    }
  }

  lemma GoodStep(y: System, op: Op)
    requires Good(y)
    ensures Good(Next(y, op)) && Next(y, op).sub.capacity == y.sub.capacity
  {
    match op
    case Publish(r) => if Published(y.sub, r).1 == Queued { GoodQueued(y, r); } else { GoodRefused(y, r); }
    case Pop => GoodPop(y);
    case _ =>
  }

  /** Main result. Over every run the queue holds exactly the lines published since the last tail
      and not yet delivered, unless a gap is announced; a popped line is the successor of
      the last one delivered; a queued gap marker names the last delivered sequence and the
      largest one heard since; and the counters are exact and bounded. */
  lemma {:induction false} DeliveryIsGapFree(capacity: nat, after: Option<nat>, ops: seq<Op>)
    requires capacity >= 1
    ensures var y := Exec(System(Fresh(capacity, after), after, [], [], {}, 0), ops);
            Good(y) && y.sub.capacity == capacity
    decreases |ops|
  {
    var start := System(Fresh(capacity, after), after, [], [], {}, 0);
    if ops != [] {
      var before := ops[..|ops| - 1];
      DeliveryIsGapFree(capacity, after, before);
      GoodStep(Exec(start, before), ops[|ops| - 1]);
      assert Exec(start, ops) == Next(Exec(start, before), ops[|ops| - 1]);
    }
  }

  /** A published record is the successor of the last one heard and finds room. */
  ghost predicate InStep(y: System, op: Op) {
    op.Publish? ==>
      Follows(y.sub.observed, op.record.sequence) && |y.sub.queue| < y.sub.capacity &&
      y.sub.bytes + |op.record.message| <= SUBSCRIBER_MAX_BYTES
  }

  ghost predicate AllInStep(y: System, ops: seq<Op>) {
    ops == [] || (AllInStep(y, ops[..|ops| - 1]) && InStep(Exec(y, ops[..|ops| - 1]), ops[|ops| - 1]))
  }

  /** Main result. Over every run of publishing and popping, a gap is opened exactly if some
      record was out of order or found no room; until then every record is queued. */
  lemma {:induction false} GapExactly(y: System, ops: seq<Op>)
    requires Good(y) && !y.sub.awaiting
    requires forall i :: 0 <= i < |ops| ==> ops[i].Publish? || ops[i].Pop?
    ensures Good(Exec(y, ops))
    ensures Exec(y, ops).sub.awaiting <==> !AllInStep(y, ops)
    ensures AllInStep(y, ops) && ops != [] && ops[|ops| - 1].Publish? ==>
              Exec(y, ops).sub.queue == Exec(y, ops[..|ops| - 1]).sub.queue + [Line(ops[|ops| - 1].record)]
    decreases |ops|
  {
    if ops != [] {
      var before := ops[..|ops| - 1];
      GapExactly(y, before);
      GoodStep(Exec(y, before), ops[|ops| - 1]);
    }
  }

  /** What the invariant says of the next line a client pops. */
  lemma PoppedLineIsSuccessor(y: System)
    requires Good(y) && y.sub.queue != [] && y.sub.queue[0].Line?
    ensures y.sub.delivered.Some? ==> y.sub.queue[0].record.sequence == y.sub.delivered.value + 1
    ensures y.delivered + [y.sub.queue[0].record] <= y.published
  {
    var q := y.sub.queue;
    assert Lines(q) == [q[0].record] + Lines(q[1..]);
    assert y.published[|y.delivered|] == q[0].record;
  }

  // ---------------------------------------------------------------------------
  // The subscriber
  // ---------------------------------------------------------------------------

  class LogSubscriber {
    const capacity: nat
    var lastObserved: Option<nat>
    var lastDelivered: Option<nat>
    var awaitingTail: bool
    var gapCount: nat
    var queuedBytes: nat
    var queue: seq<Item>

    function Value(): Subscriber
      reads this
    {
      Subscriber(capacity, lastObserved, lastDelivered, awaitingTail, gapCount, queuedBytes, queue)
    }

    constructor (capacity: nat, after: Option<nat>)
      ensures Value() == Fresh(capacity, after)
    {
      this.capacity := capacity;
      lastObserved, lastDelivered, awaitingTail, gapCount, queuedBytes, queue := after, after, false, 0, 0, [];
    }

    /** `new`: a subscriber without room is refused. */
    static method New(capacity: nat, after: Option<nat>) returns (r: Result<LogSubscriber, Error>)
      ensures r.Err? <==> capacity == 0
      ensures r.Ok? ==> fresh(r.value) && r.value.Value() == Fresh(capacity, after)
    {
      if capacity == 0 {
        return Err(InvalidCapacity);
      }
      var subscriber := new LogSubscriber(capacity, after);
      r := Ok(subscriber);
    }

    method Publish(r: Record) returns (outcome: Outcome)
      modifies this
      ensures (Value(), outcome) == Published(old(Value()), r)
    {
      if awaitingTail {
        lastObserved := Some(if lastObserved.None? then r.sequence else Max(lastObserved.value, r.sequence));
        UpdateGapMarker(r.sequence);
        return AwaitingTail;
      }
      var sequenceGap := lastObserved.Some? && (lastObserved.value == U64_MAX || lastObserved.value + 1 != r.sequence);
      if sequenceGap || |queue| == capacity || SaturatingAdd(queuedBytes, |r.message|) > SUBSCRIBER_MAX_BYTES {
        RequireTail(r.sequence);
        return MustReadTail;
      }
      lastObserved := Some(r.sequence);
      queuedBytes := SaturatingAdd(queuedBytes, |r.message|);
      queue := queue + [Line(r)];
      outcome := Queued;
    }

    method PopFront() returns (item: Option<Item>)
      modifies this
      ensures Value() == Popped(old(Value()))
      ensures item == if old(queue) == [] then None else Some(old(queue)[0])
    {
      if queue == [] {
        return None;
      }
      var front := queue[0];
      queue := queue[1..];
      if front.Line? {
        lastDelivered := Some(front.record.sequence);
        queuedBytes := SaturatingSub(queuedBytes, |front.record.message|);
      }
      item := Some(front);
    }

    method MarkTailSent(latest: Option<nat>)
      modifies this
      ensures Value() == TailSent(old(Value()), latest)
    {
      queue := [];
      queuedBytes := 0;
      lastObserved := latest;
      lastDelivered := latest;
      awaitingTail := false;
    }

    method MarkGap(latest: nat)
      modifies this
      ensures Value() == GapMarked(old(Value()), latest)
    {
      if awaitingTail {
        UpdateGapMarker(latest);
      } else {
        RequireTail(latest);
      }
    }

    method RequireTail(latest: nat)
      modifies this
      ensures Value() == Opened(old(Value()), latest)
    {
      queue := [];
      queuedBytes := 0;
      lastObserved := Some(latest);
      awaitingTail := true;
      gapCount := SaturatingAdd(gapCount, 1);
      queue := queue + [Gap(lastDelivered, latest)];
    }

    method UpdateGapMarker(latest: nat)
      modifies this
      ensures Value() == Marked(old(Value()), latest)
    {
      if queue != [] && queue[0].Gap? {
        queue := queue[0 := queue[0].(latest := Max(queue[0].latest, latest))];
      }
    }
  }
}
