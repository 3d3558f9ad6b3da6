/** The path of a log line from the Core's output to the Supervisor: the controller's bounded
    queue (`LogQueue` in `src/process_controller.rs`), the service's sequence-numbered ring
    (`drain_logs`) and its paged reads (`logs` in `src/service.rs`). */
module LogPipeline {
  import opened Common
  import opened Utf8

  const FORWARD_MAX_BYTES: nat := 4 * 1024 * 1024
  const BATCH_MAX_BYTES: nat := 512 * 1024

  // ---------------------------------------------------------------------------
  // The controller's queue
  // ---------------------------------------------------------------------------

  datatype Queue = Queue(generation: Option<nat>, capacity: nat, bytes: nat, records: seq<Bytes>, dropped: nat)

  function Total(records: seq<Bytes>): nat {
    if records == [] then 0 else |records[0]| + Total(records[1..])
  }

  /** Evicts from the front until a message of `size` bytes fits. */
  function EvictFor(q: Queue, size: nat): Queue
    decreases |q.records|
  {
    if q.records != [] && (|q.records| == q.capacity || SaturatingAdd(q.bytes, size) > FORWARD_MAX_BYTES)
    then EvictFor(q.(records := q.records[1..], bytes := SaturatingSub(q.bytes, |q.records[0]|),
                     dropped := SaturatingAdd(q.dropped, 1)), size)
    else q
  }

  function Push(q: Queue, generation: nat, m: Bytes): Queue {
    if q.generation != Some(generation) then q
    else if |m| > FORWARD_MAX_BYTES then q.(dropped := SaturatingAdd(q.dropped, 1))
    else
      var e := EvictFor(q, |m|);
      e.(bytes := SaturatingAdd(e.bytes, |m|), records := e.records + [m])
  }

  datatype Batch = Batch(records: seq<Bytes>, dropped: nat)

  function Excess(q: Queue, limit: nat): (n: nat)
    ensures n <= |q.records|
  {
    SaturatingSub(|q.records|, Min(limit, q.capacity))
  }

  function Taken(q: Queue, limit: nat): Batch {
    if limit == 0 then Batch([], 0)
    else Batch(q.records[Excess(q, limit)..],
               if Excess(q, limit) > 0 then SaturatingAdd(q.dropped, Excess(q, limit)) else q.dropped)
  }

  function Emptied(q: Queue, limit: nat): Queue {
    if limit == 0 then q else q.(records := [], bytes := 0, dropped := 0)
  }

  ghost predicate ValidQueue(q: Queue) {
    q.capacity >= 1 && |q.records| <= q.capacity && q.bytes == Total(q.records) <= FORWARD_MAX_BYTES
  }

  /** The newest `n` queued lines leave room for a message of `size` bytes. */
  ghost predicate Room(q: Queue, n: nat, size: nat)
    requires n <= |q.records|
  {
    n < q.capacity && Total(q.records[|q.records| - n..]) + size <= FORWARD_MAX_BYTES
  }

  lemma EvictFacts(q: Queue, size: nat)
    requires ValidQueue(q) && size <= FORWARD_MAX_BYTES && q.dropped + |q.records| <= U64_MAX
    ensures var e := EvictFor(q, size);
            ValidQueue(e) && |e.records| < e.capacity && e.bytes + size <= FORWARD_MAX_BYTES &&
            e.generation == q.generation && e.capacity == q.capacity && |e.records| <= |q.records| &&
            e.records == q.records[|q.records| - |e.records|..] && e.dropped + |e.records| == q.dropped + |q.records|
    decreases |q.records|
  {
    if q.records != [] && (|q.records| == q.capacity || SaturatingAdd(q.bytes, size) > FORWARD_MAX_BYTES) {
      var next := q.(records := q.records[1..], bytes := SaturatingSub(q.bytes, |q.records[0]|),
                     dropped := SaturatingAdd(q.dropped, 1));
      EvictFacts(next, size);
    }
  }

  /** What does not fit after the first line is gone does not fit with it, and all of them do not
      fit if they are over a bound. */
  lemma NoRoomForMoreLines(q: Queue, next: Queue, n: nat, size: nat)
    requires q.records != [] && next.records == q.records[1..] && next.capacity == q.capacity && n <= |next.records|
    requires |q.records| >= q.capacity || Total(q.records) + size > FORWARD_MAX_BYTES
    requires n == |next.records| || !Room(next, n + 1, size)
    ensures !Room(q, n + 1, size)
  {
    if n == |next.records| {
      assert q.records[0..] == q.records;
    } else {
      assert q.records[1..][|next.records| - (n + 1)..] == q.records[|q.records| - (n + 1)..];
    }
  }

  lemma {:induction false} EvictForNoMore(q: Queue, size: nat)
    requires |q.records| <= q.capacity && q.bytes == Total(q.records) <= FORWARD_MAX_BYTES
    ensures var n := |EvictFor(q, size).records|;
            n <= |q.records| && (n == |q.records| || !Room(q, n + 1, size))
    decreases |q.records|
  {
    if q.records != [] && (|q.records| == q.capacity || SaturatingAdd(q.bytes, size) > FORWARD_MAX_BYTES) {
      var next := q.(records := q.records[1..], bytes := SaturatingSub(q.bytes, |q.records[0]|),
                     dropped := SaturatingAdd(q.dropped, 1));
      EvictForNoMore(next, size);
      NoRoomForMoreLines(q, next, |EvictFor(next, size).records|, size);
    }
  }

  lemma {:induction false} TotalAppend(records: seq<Bytes>, m: Bytes)
    ensures Total(records + [m]) == Total(records) + |m|
    decreases |records|
  {
    if records == [] {
      assert records + [m] == [m];
    } else {
      assert (records + [m])[1..] == records[1..] + [m];
      TotalAppend(records[1..], m);
    }
  }

  /** A push keeps the newest lines, in order, and counts every line it gives up. */
  lemma PushFacts(q: Queue, generation: nat, m: Bytes)
    requires ValidQueue(q) && q.generation == Some(generation) && q.dropped + |q.records| < U64_MAX
    ensures var r := Push(q, generation, m);
            ValidQueue(r) && r.generation == q.generation && r.capacity == q.capacity &&
            r.dropped + |r.records| == q.dropped + |q.records| + 1 &&
            (|m| <= FORWARD_MAX_BYTES ==>
               |r.records| >= 1 && |r.records| <= |q.records| + 1 &&
               r.records == (q.records + [m])[|q.records| + 1 - |r.records|..]) &&
            (|m| > FORWARD_MAX_BYTES ==> r.records == q.records)
  {
    if |m| <= FORWARD_MAX_BYTES {
      EvictFacts(q, |m|);
      TotalAppend(EvictFor(q, |m|).records, m);
    }
  }

  /** A push keeps as many of the newest lines as fit beside the message, and no fewer. */
  lemma PushKeepsWhatFits(q: Queue, generation: nat, m: Bytes)
    requires ValidQueue(q) && q.generation == Some(generation) && q.dropped + |q.records| < U64_MAX
    requires |m| <= FORWARD_MAX_BYTES
    ensures var n := |Push(q, generation, m).records| - 1;
            0 <= n <= |q.records| && Room(q, n, |m|) && (n == |q.records| || !Room(q, n + 1, |m|))
  {
    EvictFacts(q, |m|);
    EvictForNoMore(q, |m|);
  }

  /** A push with room gives nothing up. */
  lemma PushWithRoom(q: Queue, generation: nat, m: Bytes)
    requires ValidQueue(q) && q.generation == Some(generation) && q.dropped + |q.records| < U64_MAX
    requires |q.records| < q.capacity && Total(q.records) + |m| <= FORWARD_MAX_BYTES
    ensures var r := Push(q, generation, m); r.records == q.records + [m] && r.dropped == q.dropped
  {
    PushFacts(q, generation, m);
    PushKeepsWhatFits(q, generation, m);
    var n := |Push(q, generation, m).records|;
    if n <= |q.records| {
      SuffixTotal(q.records, |q.records| - n);
    }
  }

  lemma {:induction false} SuffixTotal(records: seq<Bytes>, n: nat)
    requires n <= |records|
    ensures Total(records[n..]) <= Total(records)
    decreases n
  {
    if n > 0 {
      assert records[1..][n - 1..] == records[n..];
      SuffixTotal(records[1..], n - 1);
    } else {
      assert records[0..] == records;
    }
  }

  /** Taking returns the newest lines that the caller and the queue allow, reports every other one
      as lost, and leaves the queue empty; asking for nothing changes nothing. */
  lemma TakenFacts(q: Queue, limit: nat)
    requires ValidQueue(q) && q.dropped + |q.records| <= U64_MAX
    ensures var b := Taken(q, limit);
            && (limit == 0 ==> b == Batch([], 0) && Emptied(q, limit) == q)
            && (limit > 0 ==>
                  |b.records| == Min(|q.records|, limit) && b.records == q.records[|q.records| - |b.records|..] &&
                  b.dropped + |b.records| == q.dropped + |q.records| &&
                  Emptied(q, limit).records == [] && Emptied(q, limit).bytes == 0 && Emptied(q, limit).dropped == 0 &&
                  Emptied(q, limit).generation == q.generation && Emptied(q, limit).capacity == q.capacity)
  {
  }

  class LogQueue {
    var generation: Option<nat>
    const capacity: nat
    var retainedBytes: nat
    var records: seq<Bytes>
    var dropped: nat

    function Value(): Queue
      reads this
    {
      Queue(generation, capacity, retainedBytes, records, dropped)
    }

    constructor (capacity: nat)
      ensures Value() == Queue(None, capacity, 0, [], 0)
    {
      this.capacity := capacity;
      generation, retainedBytes, records, dropped := None, 0, [], 0;
    }

    method BeginGeneration(g: nat)
      modifies this
      ensures Value() == Queue(Some(g), capacity, 0, [], 0)
    {
      generation, retainedBytes, records, dropped := Some(g), 0, [], 0;
    }

    method FinishGeneration(g: nat)
      modifies this
      ensures Value() == if old(generation) == Some(g) then old(Value()).(generation := None) else old(Value())
    {
      if generation == Some(g) {
        generation := None;
      }
    }

    method PushLine(g: nat, message: Bytes)
      modifies this
      ensures Value() == Push(old(Value()), g, message)
    {
      if generation != Some(g) {
        return;
      }
      if |message| > FORWARD_MAX_BYTES {
        dropped := SaturatingAdd(dropped, 1);
        return;
      }
      while records != [] && (|records| == capacity || SaturatingAdd(retainedBytes, |message|) > FORWARD_MAX_BYTES)
        invariant generation == old(generation)
        invariant EvictFor(Value(), |message|) == EvictFor(old(Value()), |message|)
        decreases |records|
      {
        retainedBytes := SaturatingSub(retainedBytes, |records[0]|);
        records := records[1..];
        dropped := SaturatingAdd(dropped, 1);
      }
      retainedBytes := SaturatingAdd(retainedBytes, |message|);
      records := records + [message];
    }

    method Take(limit: nat) returns (batch: Batch)
      modifies this
      ensures batch == Taken(old(Value()), limit) && Value() == Emptied(old(Value()), limit)
    {
      if limit == 0 {
        return Batch([], 0);
      }
      var excess := SaturatingSub(|records|, Min(limit, capacity));
      if excess > 0 {
        records := records[excess..];
        dropped := SaturatingAdd(dropped, excess);
      }
      batch := Batch(records, dropped);
      records, retainedBytes, dropped := [], 0, 0;
    }
  }

  // ---------------------------------------------------------------------------
  // The service's ring
  // ---------------------------------------------------------------------------

  datatype Forwarded = Forwarded(sequence: nat, message: Bytes)

  /** `next` is the next sequence number; `dropped` the highest one known to be gone. */
  datatype Ring = Ring(capacity: nat, maxLine: nat, records: seq<Forwarded>, bytes: nat, next: nat, dropped: nat)

  function Evict(r: Ring, size: nat): Ring
    decreases |r.records|
  {
    if r.records != [] && (|r.records| == r.capacity || SaturatingAdd(r.bytes, size) > FORWARD_MAX_BYTES)
    then Evict(r.(records := r.records[1..], bytes := SaturatingSub(r.bytes, |r.records[0].message|),
                  dropped := Max(r.dropped, r.records[0].sequence)), size)
    else r
  }

  function LineLimit(r: Ring): nat {
    Min(r.maxLine, FORWARD_MAX_BYTES)
  }

  /** One line; a ring whose sequence numbers are exhausted takes no more. */
  function Admit(r: Ring, m: Bytes): Ring {
    if r.next >= U64_MAX then r
    else
      var message := Truncate(m, LineLimit(r));
      var e := Evict(r.(next := r.next + 1), |message|);
      e.(bytes := SaturatingAdd(e.bytes, |message|), records := e.records + [Forwarded(r.next, message)])
  }

  function AdmitAll(r: Ring, ms: seq<Bytes>): Ring {
    if ms == [] then r else Admit(AdmitAll(r, ms[..|ms| - 1]), ms[|ms| - 1])
  }

  function SkipDropped(r: Ring, n: nat): Ring {
    if n == 0 then r
    else
      var last := SaturatingAdd(r.next, n - 1);
      r.(dropped := Max(r.dropped, last), next := SaturatingAdd(last, 1))
  }

  function Drain(r: Ring, b: Batch): Ring {
    AdmitAll(SkipDropped(r, b.dropped), b.records)
  }

  /** The lines are those with the given numbers: record `s` carries line number `s`. */
  ghost predicate Carries(rs: seq<Forwarded>, lines: seq<Bytes>, limit: nat) {
    forall i :: 0 <= i < |rs| ==>
      1 <= rs[i].sequence <= |lines| && rs[i].message == Truncate(lines[rs[i].sequence - 1], limit)
  }

  ghost predicate Ascending(rs: seq<Forwarded>) {
    forall i, j :: 0 <= i < j < |rs| ==> rs[i].sequence < rs[j].sequence
  }

  ghost predicate Within(rs: seq<Forwarded>, low: nat, high: nat) {
    forall i :: 0 <= i < |rs| ==> low < rs[i].sequence <= high
  }

  function RingBytes(rs: seq<Forwarded>): nat {
    if rs == [] then 0 else |rs[0].message| + RingBytes(rs[1..])
  }

  lemma {:induction false} RingBytesAppend(rs: seq<Forwarded>, f: Forwarded)
    ensures RingBytes(rs + [f]) == RingBytes(rs) + |f.message|
    decreases |rs|
  {
    if rs == [] {
      assert rs + [f] == [f];
    } else {
      assert (rs + [f])[1..] == rs[1..] + [f];
      RingBytesAppend(rs[1..], f);
    }
  }

  /** Within both bounds, with an exact byte count and numbers in order. */
  ghost predicate ValidRing(r: Ring) {
    && r.capacity >= 1 && |r.records| <= r.capacity
    && r.bytes == RingBytes(r.records) <= FORWARD_MAX_BYTES
    && r.next >= 1 && Ascending(r.records) && Within(r.records, 0, r.next - 1)
  }

  /** The newest `n` records leave room for a line of `size` bytes. */
  ghost predicate RingRoom(rs: seq<Forwarded>, capacity: nat, n: nat, size: nat)
    requires n <= |rs|
  {
    n < capacity && RingBytes(rs[|rs| - n..]) + size <= FORWARD_MAX_BYTES
  }

  lemma EvictRingFacts(r: Ring, size: nat)
    requires r.capacity >= 1 && |r.records| <= r.capacity
    requires r.bytes == RingBytes(r.records) <= FORWARD_MAX_BYTES && size <= FORWARD_MAX_BYTES
    ensures var e := Evict(r, size);
            e == r.(records := e.records, bytes := e.bytes, dropped := e.dropped) && |e.records| < r.capacity &&
            |e.records| <= |r.records| && e.records == r.records[|r.records| - |e.records|..] &&
            e.bytes == RingBytes(e.records) && e.bytes + size <= FORWARD_MAX_BYTES
    decreases |r.records|
  {
    if r.records != [] && (|r.records| == r.capacity || SaturatingAdd(r.bytes, size) > FORWARD_MAX_BYTES) {
      EvictRingFacts(r.(records := r.records[1..], bytes := SaturatingSub(r.bytes, |r.records[0].message|),
                        dropped := Max(r.dropped, r.records[0].sequence)), size);
    }
  }

  /** What does not fit after the first record is gone does not fit with it, and all of them do
      not fit if they are over a bound. */
  lemma NoRoomForMore(rs: seq<Forwarded>, capacity: nat, n: nat, size: nat)
    requires rs != [] && n <= |rs| - 1 && (|rs| >= capacity || RingBytes(rs) + size > FORWARD_MAX_BYTES)
    requires n == |rs| - 1 || !RingRoom(rs[1..], capacity, n + 1, size)
    ensures !RingRoom(rs, capacity, n + 1, size)
  {
    if n == |rs| - 1 {
      assert rs[0..] == rs;
    } else {
      assert rs[1..][|rs| - 1 - (n + 1)..] == rs[|rs| - (n + 1)..];
    }
  }

  lemma {:induction false} EvictNoMore(r: Ring, size: nat)
    requires |r.records| <= r.capacity && r.bytes == RingBytes(r.records) <= FORWARD_MAX_BYTES
    ensures var n := |Evict(r, size).records|;
            n <= |r.records| && (n == |r.records| || !RingRoom(r.records, r.capacity, n + 1, size))
    decreases |r.records|
  {
    if r.records != [] && (|r.records| == r.capacity || SaturatingAdd(r.bytes, size) > FORWARD_MAX_BYTES) {
      var next := r.(records := r.records[1..], bytes := SaturatingSub(r.bytes, |r.records[0].message|),
                     dropped := Max(r.dropped, r.records[0].sequence));
      EvictNoMore(next, size);
      NoRoomForMore(r.records, r.capacity, |Evict(next, size).records|, size);
    }
  }

  /** What eviction does to the highest number known to be gone. */
  lemma {:induction false} EvictDropped(r: Ring, size: nat)
    requires Ascending(r.records)
    ensures var e := Evict(r, size);
            |e.records| <= |r.records| &&
            e.dropped == if |e.records| == |r.records| then r.dropped
                         else Max(r.dropped, r.records[|r.records| - |e.records| - 1].sequence)
    decreases |r.records|
  {
    if r.records != [] && (|r.records| == r.capacity || SaturatingAdd(r.bytes, size) > FORWARD_MAX_BYTES) {
      var next := r.(records := r.records[1..], bytes := SaturatingSub(r.bytes, |r.records[0].message|),
                     dropped := Max(r.dropped, r.records[0].sequence));
      EvictDropped(next, size);
    }
  }

  lemma AscendingSuffix(rs: seq<Forwarded>, n: nat, low: nat, high: nat)
    requires Ascending(rs) && Within(rs, low, high) && n <= |rs|
    ensures Ascending(rs[n..]) && Within(rs[n..], low, high)
  {
  }

  lemma AscendingAppend(rs: seq<Forwarded>, f: Forwarded, low: nat)
    requires low < f.sequence && Ascending(rs) && Within(rs, low, f.sequence - 1)
    ensures Ascending(rs + [f]) && Within(rs + [f], low, f.sequence)
  {
  }

  lemma AdmitFacts(r: Ring, m: Bytes)
    requires ValidRing(r) && r.next < U64_MAX
    ensures var a := Admit(r, m);
            ValidRing(a) && a.next == r.next + 1 && a.capacity == r.capacity && a.maxLine == r.maxLine &&
            a.records != [] && |a.records| <= |r.records| + 1 &&
            a.records == r.records[|r.records| + 1 - |a.records|..] + [Forwarded(r.next, Truncate(m, LineLimit(r)))]
  {
    var f := Forwarded(r.next, Truncate(m, LineLimit(r)));
    EvictRingFacts(r.(next := r.next + 1), |f.message|);
    var e := Evict(r.(next := r.next + 1), |f.message|);
    AscendingSuffix(r.records, |r.records| - |e.records|, 0, r.next - 1);
    AscendingAppend(e.records, f, 0);
    RingBytesAppend(e.records, f);
  }

  lemma EvictKeepsWhatFits(r: Ring, size: nat, e: Ring, n: nat)
    requires ValidRing(r) && size <= FORWARD_MAX_BYTES && e == Evict(r, size) && n == |e.records|
    ensures n <= |r.records| && RingRoom(r.records, r.capacity, n, size)
    ensures n == |r.records| || !RingRoom(r.records, r.capacity, n + 1, size)
  {
    EvictRingFacts(r, size);
    EvictNoMore(r, size);
  }

  /** The ring keeps as many of its newest records as fit beside a line and no fewer, and notes the
      highest number it gave up. */
  lemma AdmitKeepsWhatFits(r: Ring, m: Bytes, size: nat, n: nat)
    requires ValidRing(r) && r.next < U64_MAX
    requires size == |Truncate(m, LineLimit(r))| && n + 1 == |Admit(r, m).records|
    ensures n <= |r.records| && RingRoom(r.records, r.capacity, n, size)
    ensures n == |r.records| || !RingRoom(r.records, r.capacity, n + 1, size)
    ensures Admit(r, m).dropped == if n == |r.records| then r.dropped
                                   else Max(r.dropped, r.records[|r.records| - n - 1].sequence)
  {
    var next := r.(next := r.next + 1);
    EvictKeepsWhatFits(next, size, Evict(next, size), n);
    EvictDropped(next, size);
  }

  /** Draining numbers the new lines consecutively and keeps the newest. `lines` are the lines
      numbered so far, `fresh` the ones numbered by this batch after its dropped ones. */
  lemma {:induction false} AdmitAllFacts(r: Ring, ms: seq<Bytes>)
    requires ValidRing(r) && r.next + |ms| <= U64_MAX
    ensures var a := AdmitAll(r, ms);
            ValidRing(a) && a.next == r.next + |ms| && a.capacity == r.capacity && a.maxLine == r.maxLine
    decreases |ms|
  {
    if ms != [] {
      AdmitAllFacts(r, ms[..|ms| - 1]);
      AdmitFacts(AdmitAll(r, ms[..|ms| - 1]), ms[|ms| - 1]);
    }
  }

  lemma CarriesSuffixAppend(rs: seq<Forwarded>, n: nat, f: Forwarded, lines: seq<Bytes>, limit: nat)
    requires Carries(rs, lines, limit) && n <= |rs|
    requires 1 <= f.sequence <= |lines| && f.message == Truncate(lines[f.sequence - 1], limit)
    ensures Carries(rs[n..] + [f], lines, limit)
  {
  }

  /** The messages are the lines numbered from `first`. */
  ghost predicate AreNumbered(ms: seq<Bytes>, lines: seq<Bytes>, first: nat) {
    first >= 1 && first - 1 + |ms| <= |lines| && forall i :: 0 <= i < |ms| ==> ms[i] == lines[first - 1 + i]
  }

  lemma AdmitCarries(r: Ring, m: Bytes, lines: seq<Bytes>, limit: nat)
    requires ValidRing(r) && r.next < U64_MAX && limit == LineLimit(r)
    requires Carries(r.records, lines, limit) && r.next <= |lines| && lines[r.next - 1] == m
    ensures Carries(Admit(r, m).records, lines, limit)
  {
    AdmitFacts(r, m);
    CarriesSuffixAppend(r.records, |r.records| + 1 - |Admit(r, m).records|,
                        Forwarded(r.next, Truncate(m, limit)), lines, limit);
  }

  lemma {:induction false} AdmitAllCarries(r: Ring, ms: seq<Bytes>, lines: seq<Bytes>)
    requires ValidRing(r) && r.next + |ms| <= U64_MAX
    requires Carries(r.records, lines, LineLimit(r))
    requires AreNumbered(ms, lines, r.next)
    ensures Carries(AdmitAll(r, ms).records, lines, LineLimit(r))
    decreases |ms|
  {
    if ms != [] {
      var front, last := ms[..|ms| - 1], ms[|ms| - 1];
      assert last == lines[r.next - 1 + |front|];
      AdmitAllCarries(r, front, lines);
      AdmitAllFacts(r, front);
      AdmitCarries(AdmitAll(r, front), last, lines, LineLimit(r));
    }
  }

  /** `drain_logs`, record by record. */
  class ForwardedLogs {
    const capacity: nat
    const maxLine: nat
    var records: seq<Forwarded>
    var bytes: nat
    var next: nat
    var dropped: nat

    function Value(): Ring
      reads this
    {
      Ring(capacity, maxLine, records, bytes, next, dropped)
    }

    constructor (capacity: nat, maxLine: nat)
      ensures Value() == Ring(capacity, maxLine, [], 0, 1, 0)
    {
      this.capacity, this.maxLine := capacity, maxLine;
      records, bytes, next, dropped := [], 0, 1, 0;
    }

    method AdmitLine(m: Bytes)
      requires next < U64_MAX
      modifies this
      ensures Value() == Admit(old(Value()), m)
    {
      var sequence := next;
      next := next + 1;
      var message := Truncate(m, Min(maxLine, FORWARD_MAX_BYTES));
      ghost var start := Value();
      while records != [] && (|records| == capacity || SaturatingAdd(bytes, |message|) > FORWARD_MAX_BYTES)
        invariant Evict(Value(), |message|) == Evict(start, |message|)
        decreases |records|
      {
        bytes := SaturatingSub(bytes, |records[0].message|);
        dropped := Max(dropped, records[0].sequence);
        records := records[1..];
      }
      bytes := SaturatingAdd(bytes, |message|);
      records := records + [Forwarded(sequence, message)];
    }

    method DrainBatch(batch: Batch)
      modifies this
      ensures Value() == Drain(old(Value()), batch)
    {
      if batch.dropped > 0 {
        var last := SaturatingAdd(next, batch.dropped - 1);
        dropped := Max(dropped, last);
        next := SaturatingAdd(last, 1);
      }
      ghost var start := Value();
      var i := 0;
      while i < |batch.records| && next < U64_MAX
        invariant i <= |batch.records| && Value() == AdmitAll(start, batch.records[..i])
      {
        AdmitLine(batch.records[i]);
        i := i + 1;
        assert batch.records[..i][..i - 1] == batch.records[..i - 1];
      }
      assert batch.records[..|batch.records|] == batch.records;
      if i < |batch.records| {
        ExhaustedAdmitsNothing(start, batch.records, i);
      }
    }
  }

  lemma {:induction false} ExhaustedAdmitsNothing(r: Ring, ms: seq<Bytes>, i: nat)
    requires i <= |ms| && AdmitAll(r, ms[..i]).next >= U64_MAX
    ensures AdmitAll(r, ms) == AdmitAll(r, ms[..i])
    decreases |ms|
  {
    if i == |ms| {
      assert ms[..i] == ms;
    } else {
      var front := ms[..|ms| - 1];
      assert front[..i] == ms[..i];
      ExhaustedAdmitsNothing(r, front, i);
    }
  }
}
