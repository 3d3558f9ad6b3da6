/** Paged reads of the forwarded log (`logs` in `src/service.rs`), and the account of every
    line from the Core's output to a reader that passes each reply's `next` as its cursor. */
module LogReading {
  import opened Common
  import opened Utf8
  import opened LogPipeline

  datatype Reply = Reply(records: seq<Forwarded>, next: Option<nat>, droppedBefore: nat, droppedSince: nat)

  predicate Newer(f: Forwarded, after: Option<nat>) {
    after.None? || f.sequence > after.value
  }

  function Position(cursor: Option<nat>): nat {
    if cursor.None? then 0 else cursor.value
  }

  /** The newer records, up to a count and a byte budget. */
  function Page(rs: seq<Forwarded>, after: Option<nat>, limit: nat, budget: nat): seq<Forwarded> {
    if rs == [] || limit == 0 then []
    else if !Newer(rs[0], after) then Page(rs[1..], after, limit, budget)
    else if |rs[0].message| > budget then []
    else [rs[0]] + Page(rs[1..], after, limit - 1, budget - |rs[0].message|)
  }

  predicate AnyNewer(rs: seq<Forwarded>, cursor: Option<nat>) {
    exists i :: 0 <= i < |rs| && Newer(rs[i], cursor)
  }

  function PageCursor(page: seq<Forwarded>, after: Option<nat>): Option<nat> {
    if page == [] then after else Some(page[|page| - 1].sequence)
  }

  function NextSequence(r: Ring, cursor: Option<nat>): Option<nat> {
    if AnyNewer(r.records, cursor) then cursor
    else if r.next > 1 then Some(if cursor.Some? then Max(cursor.value, r.next - 1) else r.next - 1)
    else cursor
  }

  function Read(r: Ring, after: Option<nat>, limit: nat): Reply {
    var page := Page(r.records, after, Min(limit, r.capacity), BATCH_MAX_BYTES);
    var next := NextSequence(r, PageCursor(page, after));
    Reply(page, next, r.dropped, SaturatingSub(SaturatingSub(Position(next), Position(after)), |page|))
  }

  /** One record further in the ring, whatever has been collected before it. */
  lemma PageStep(rs: seq<Forwarded>, i: nat, after: Option<nat>, limit: nat, budget: nat, before: seq<Forwarded>)
    requires i < |rs| && limit > 0
    ensures !Newer(rs[i], after) ==> Page(rs[i..], after, limit, budget) == Page(rs[i + 1..], after, limit, budget)
    ensures Newer(rs[i], after) && |rs[i].message| > budget ==> Page(rs[i..], after, limit, budget) == []
    ensures Newer(rs[i], after) && |rs[i].message| <= budget ==>
              before + Page(rs[i..], after, limit, budget) ==
              before + [rs[i]] + Page(rs[i + 1..], after, limit - 1, budget - |rs[i].message|)
  {
    assert rs[i..][1..] == rs[i + 1..];
  }

  method CollectPage(rs: seq<Forwarded>, after: Option<nat>, room: nat, ghost whole: seq<Forwarded>)
    returns (records: seq<Forwarded>)
    requires whole == Page(rs, after, room, BATCH_MAX_BYTES)
    ensures records == whole
  {
    records := [];
    var bytes := 0;
    var i := 0;
    assert rs[0..] == rs;
    while i < |rs| && |records| < room
      invariant i <= |rs| && |records| <= room && bytes <= BATCH_MAX_BYTES
      invariant whole == records + Page(rs[i..], after, room - |records|, BATCH_MAX_BYTES - bytes)
    {
      var record := rs[i];
      PageStep(rs, i, after, room - |records|, BATCH_MAX_BYTES - bytes, records);
      if Newer(record, after) {
        if bytes + |record.message| > BATCH_MAX_BYTES {
          break;
        }
        bytes := bytes + |record.message|;
        records := records + [record];
      }
      i := i + 1;
    }
    assert records + [] == records;
  }

  method ReadLogs(r: Ring, after: Option<nat>, limit: nat) returns (reply: Reply)
    ensures reply == Read(r, after, limit)
  {
    var room := Min(limit, r.capacity);
    var records := CollectPage(r.records, after, room, Page(r.records, after, room, BATCH_MAX_BYTES));
    var next := NextSequence(r, PageCursor(records, after));
    reply := Reply(records, next, r.dropped, SaturatingSub(SaturatingSub(Position(next), Position(after)), |records|));
  }

  // ---------------------------------------------------------------------------
  // One page
  // ---------------------------------------------------------------------------

  function CountOld(rs: seq<Forwarded>, after: Option<nat>): (n: nat)
    ensures n <= |rs|
  {
    if rs == [] || Newer(rs[0], after) then 0 else 1 + CountOld(rs[1..], after)
  }

  lemma {:induction false} OldAreFirst(rs: seq<Forwarded>, after: Option<nat>)
    requires Ascending(rs)
    ensures forall i :: 0 <= i < |rs| ==> (Newer(rs[i], after) <==> i >= CountOld(rs, after))
    decreases |rs|
  {
    if rs != [] && !Newer(rs[0], after) {
      OldAreFirst(rs[1..], after);
      forall i | 0 < i < |rs| ensures Newer(rs[i], after) <==> i >= CountOld(rs, after) {
        assert rs[i] == rs[1..][i - 1];
      }
    }
  }

  lemma ConsSlice(rs: seq<Forwarded>, rest: seq<Forwarded>)
    requires rs != [] && |rest| < |rs| && rest == rs[1..][..|rest|]
    ensures [rs[0]] + rest == rs[..1 + |rest|]
  {
  }

  lemma NoneOldAfterNew(rs: seq<Forwarded>, after: Option<nat>)
    requires Ascending(rs) && rs != [] && Newer(rs[0], after)
    ensures CountOld(rs[1..], after) == 0
  {
    if |rs| > 1 {
      assert rs[1..][0] == rs[1] && Newer(rs[1], after);
    }
  }

  /** A page is a stretch of the ring that starts at the first newer record. */
  lemma {:induction false} PageIsContiguous(rs: seq<Forwarded>, after: Option<nat>, limit: nat, budget: nat)
    requires Ascending(rs)
    ensures var page := Page(rs, after, limit, budget);
            var from := CountOld(rs, after);
            from + |page| <= |rs| && page == rs[from..from + |page|]
    decreases |rs|
  {
    if rs != [] && limit > 0 {
      if !Newer(rs[0], after) {
        PageIsContiguous(rs[1..], after, limit, budget);
      } else if |rs[0].message| <= budget {
        PageIsContiguous(rs[1..], after, limit - 1, budget - |rs[0].message|);
        NoneOldAfterNew(rs, after);
        ConsSlice(rs, Page(rs[1..], after, limit - 1, budget - |rs[0].message|));
      }
    }
  }

  /** A page that starts at `from` is within its limits, and ends only at the end of the ring, at
      the count, or before a record that does not fit the budget. */
  ghost predicate Full(rs: seq<Forwarded>, from: nat, page: seq<Forwarded>, limit: nat, budget: nat) {
    var end := from + |page|;
    |page| <= limit && RingBytes(page) <= budget && end <= |rs| &&
    (end == |rs| || |page| == limit || RingBytes(page) + |rs[end].message| > budget)
  }

  lemma FullAfterNewer(rs: seq<Forwarded>, rest: seq<Forwarded>, limit: nat, budget: nat)
    requires rs != [] && limit > 0 && |rs[0].message| <= budget
    requires Full(rs[1..], 0, rest, limit - 1, budget - |rs[0].message|)
    ensures Full(rs, 0, [rs[0]] + rest, limit, budget)
  {
    ConsBytes(rs[0], rest);
    assert |rest| + 1 < |rs| ==> rs[1..][|rest|] == rs[|rest| + 1];
  }

  lemma FullAfterOld(rs: seq<Forwarded>, from: nat, page: seq<Forwarded>, limit: nat, budget: nat)
    requires rs != [] && Full(rs[1..], from, page, limit, budget)
    ensures Full(rs, from + 1, page, limit, budget)
  {
    var end := from + |page|;
    assert end + 1 < |rs| ==> rs[1..][end] == rs[end + 1];
  }

  lemma {:induction false} PageIsFull(rs: seq<Forwarded>, after: Option<nat>, limit: nat, budget: nat)
    requires Ascending(rs)
    ensures Full(rs, CountOld(rs, after), Page(rs, after, limit, budget), limit, budget)
    decreases |rs|
  {
    if rs != [] && limit > 0 {
      if !Newer(rs[0], after) {
        PageIsFull(rs[1..], after, limit, budget);
        FullAfterOld(rs, CountOld(rs[1..], after), Page(rs[1..], after, limit, budget), limit, budget);
      } else if |rs[0].message| <= budget {
        PageIsFull(rs[1..], after, limit - 1, budget - |rs[0].message|);
        NoneOldAfterNew(rs, after);
        FullAfterNewer(rs, Page(rs[1..], after, limit - 1, budget - |rs[0].message|), limit, budget);
      }
    }
  }

  lemma ConsBytes(f: Forwarded, rest: seq<Forwarded>)
    ensures RingBytes([f] + rest) == |f.message| + RingBytes(rest)
  {
    assert ([f] + rest)[1..] == rest;
  }

  /** Distinct numbers in an interval are at most as many as the interval is long. */
  lemma {:induction false} AscendingFits(rs: seq<Forwarded>, low: nat, high: nat)
    requires Ascending(rs) && Within(rs, low, high) && low <= high
    ensures |rs| <= high - low
    decreases |rs|
  {
    if rs != [] {
      var last := rs[|rs| - 1].sequence;
      AscendingFits(rs[..|rs| - 1], low, last - 1);
    }
  }

  lemma SliceFacts(rs: seq<Forwarded>, from: nat, page: seq<Forwarded>, low: nat)
    requires Ascending(rs) && from + |page| <= |rs| && page == rs[from..from + |page|]
    requires forall i :: 0 <= i < |rs| ==> (rs[i].sequence > low <==> i >= from)
    ensures Ascending(page) && (forall f :: f in page ==> f in rs)
    ensures var high := if page == [] then low else page[|page| - 1].sequence;
            low <= high && Within(page, low, high) &&
            forall f :: f in rs && low < f.sequence <= high ==> f in page
  {
    assert forall i :: 0 <= i < |page| ==> page[i] == rs[from + i];
    var high := if page == [] then low else page[|page| - 1].sequence;
    forall f | f in rs && low < f.sequence <= high ensures f in page {
      var i :| 0 <= i < |rs| && rs[i] == f;
      assert i >= from && i < from + |page|;
      assert f == page[i - from];
    }
  }

  lemma NewerByPosition(r: Ring, after: Option<nat>)
    requires ValidRing(r)
    ensures forall i :: 0 <= i < |r.records| ==>
              (r.records[i].sequence > Position(after) <==> i >= CountOld(r.records, after))
  {
    OldAreFirst(r.records, after);
    forall i | 0 <= i < |r.records|
      ensures r.records[i].sequence > Position(after) <==> i >= CountOld(r.records, after)
    {
      assert Newer(r.records[i], after) <==> i >= CountOld(r.records, after);
    }
  }

  lemma PageFacts(r: Ring, after: Option<nat>, limit: nat)
    requires ValidRing(r) && Position(after) < r.next
    ensures var page := Page(r.records, after, limit, BATCH_MAX_BYTES);
            var cursor := PageCursor(page, after);
            && Ascending(page) && Within(page, Position(after), Position(cursor))
            && Position(after) <= Position(cursor) < r.next
            && (forall f :: f in page ==> f in r.records)
            && (forall f :: f in r.records && Position(after) < f.sequence <= Position(cursor) ==> f in page)
  {
    var page := Page(r.records, after, limit, BATCH_MAX_BYTES);
    var from := CountOld(r.records, after);
    PageIsContiguous(r.records, after, limit, BATCH_MAX_BYTES);
    NewerByPosition(r, after);
    SliceFacts(r.records, from, page, Position(after));
    if page != [] {
      var last := r.records[from + |page| - 1];
      assert page[|page| - 1] == last && last.sequence < r.next;
    }
  }

  lemma NextFacts(r: Ring, cursor: Option<nat>)
    requires ValidRing(r) && Position(cursor) < r.next
    ensures var next := NextSequence(r, cursor);
            && Position(cursor) <= Position(next) < r.next
            && (AnyNewer(r.records, cursor) ==> next == cursor)
            && (!AnyNewer(r.records, cursor) ==> Position(next) == r.next - 1)
            && (forall f :: f in r.records && f.sequence <= Position(next) ==> f.sequence <= Position(cursor))
  {
    if !AnyNewer(r.records, cursor) {
      forall f | f in r.records ensures f.sequence <= Position(cursor) {
        var i :| 0 <= i < |r.records| && r.records[i] == f;
        assert !Newer(r.records[i], cursor);
      }
    }
  }

  lemma WithinWider(rs: seq<Forwarded>, low: nat, high: nat, higher: nat)
    requires Within(rs, low, high) && high <= higher
    ensures Within(rs, low, higher)
  {
  }

  /** A reply accounts for every sequence number between the old cursor and the new one: each
      is delivered or counted as dropped, nothing still held is counted as dropped, and a
      reply that leaves nothing newer moves the cursor to the last number given out. */
  lemma ReadAccounts(r: Ring, after: Option<nat>, limit: nat)
    requires ValidRing(r) && Position(after) < r.next
    ensures var reply := Read(r, after, limit);
            && Position(after) <= Position(reply.next) < r.next
            && Ascending(reply.records) && Within(reply.records, Position(after), Position(reply.next))
            && |reply.records| + reply.droppedSince == Position(reply.next) - Position(after)
            && (forall f :: f in r.records && Position(after) < f.sequence <= Position(reply.next) ==>
                  f in reply.records)
            && (!AnyNewer(r.records, reply.next) ==> Position(reply.next) == r.next - 1)
            && (forall f :: f in reply.records ==> f in r.records)
  {
    var reply := Read(r, after, limit);
    var cursor := PageCursor(reply.records, after);
    PageFacts(r, after, Min(limit, r.capacity));
    NextFacts(r, cursor);
    WithinWider(reply.records, Position(after), Position(cursor), Position(reply.next));
    AscendingFits(reply.records, Position(after), Position(reply.next));
  }

  /** With something newer to read and room for a record, the cursor moves exactly when the
      first newer record fits a page. */
  lemma ReadProgresses(r: Ring, after: Option<nat>, limit: nat)
    requires ValidRing(r) && Position(after) < r.next && limit >= 1 && AnyNewer(r.records, after)
    ensures var first := CountOld(r.records, after);
            first < |r.records| &&
            (Position(Read(r, after, limit).next) > Position(after) <==> |r.records[first].message| <= BATCH_MAX_BYTES)
  {
    ReadAccounts(r, after, limit);
    OldAreFirst(r.records, after);
    FirstNewerDecides(r.records, after, Min(limit, r.capacity), BATCH_MAX_BYTES);
  }

  lemma {:induction false} FirstNewerDecides(rs: seq<Forwarded>, after: Option<nat>, limit: nat, budget: nat)
    requires AnyNewer(rs, after) && limit >= 1
    ensures var first := CountOld(rs, after);
            first < |rs| && (Page(rs, after, limit, budget) == [] <==> |rs[first].message| > budget)
    decreases |rs|
  {
    if !Newer(rs[0], after) {
      var i :| 0 <= i < |rs| && Newer(rs[i], after);
      assert rs[1..][i - 1] == rs[i];
      FirstNewerDecides(rs[1..], after, limit, budget);
    }
  }

  // ---------------------------------------------------------------------------
  // End to end
  // ---------------------------------------------------------------------------

  /** A read drains the queue first only while the Core is active. */
  datatype Event = Line(m: Bytes) | Collect | ReadPage(limit: nat) | ReadHeld(limit: nat)

  /** `lines` are all lines of the first Core generation so far; `delivered` and `lost` what the
      reader got and was told it lost. */
  datatype Pipeline = Pipeline(queue: Queue, ring: Ring, lines: seq<Bytes>,
                               cursor: Option<nat>, delivered: seq<Forwarded>, lost: nat)

  function Collected(p: Pipeline): Pipeline {
    p.(ring := Drain(p.ring, Taken(p.queue, p.ring.capacity)), queue := Emptied(p.queue, p.ring.capacity))
  }

  function Step(p: Pipeline, generation: nat, e: Event): Pipeline {
    match e
    case Line(m) => p.(queue := Push(p.queue, generation, m), lines := p.lines + [m])
    case Collect => Collected(p)
    case ReadPage(limit) => Delivered(Collected(p), limit)
    case ReadHeld(limit) => Delivered(p, limit)
  }

  function Delivered(p: Pipeline, limit: nat): Pipeline {
    var reply := Read(p.ring, p.cursor, limit);
    p.(cursor := reply.next, delivered := p.delivered + reply.records, lost := p.lost + reply.droppedSince)
  }

  function Run(start: Pipeline, generation: nat, events: seq<Event>): Pipeline {
    if events == [] then start
    else Step(Run(start, generation, events[..|events| - 1]), generation, events[|events| - 1])
  }

  ghost predicate Fresh(p: Pipeline, generation: nat) {
    p.queue.generation == Some(generation) && p.queue.capacity >= 1 && p.queue.bytes == 0 && p.queue.records == [] &&
    p.queue.dropped == 0 && p.ring.capacity >= 1 && p.ring.records == [] && p.ring.bytes == 0 && p.ring.next == 1 &&
    p.lines == [] && p.cursor.None? && p.delivered == [] && p.lost == 0
  }

  /** Every line is in the queue, was given up by the queue, or has a sequence number; and the
      reader has accounted for every number up to its cursor. */
  ghost predicate Accounted(p: Pipeline, generation: nat) {
    && ValidQueue(p.queue) && p.queue.generation == Some(generation) && ValidRing(p.ring)
    && |p.lines| == p.ring.next - 1 + p.queue.dropped + |p.queue.records|
    && Position(p.cursor) < p.ring.next
    && Ascending(p.delivered) && Within(p.delivered, 0, Position(p.cursor))
    && |p.delivered| + p.lost == Position(p.cursor)
  }

  /** What is held or was delivered under number s is line s, and what is still queued is the
      tail of the lines. */
  ghost predicate InOrder(p: Pipeline) {
    && |p.queue.records| <= |p.lines| && p.queue.records == p.lines[|p.lines| - |p.queue.records|..]
    && Carries(p.ring.records, p.lines, LineLimit(p.ring))
    && Carries(p.delivered, p.lines, LineLimit(p.ring))
  }

  lemma CollectAccounts(p: Pipeline, generation: nat)
    requires Accounted(p, generation) && |p.lines| < U64_MAX
    ensures var c := Collected(p);
            Accounted(c, generation) && c.queue.records == [] && c.queue.dropped == 0 &&
            c.ring.next == |p.lines| + 1 && c.ring.maxLine == p.ring.maxLine
  {
    var b := Taken(p.queue, p.ring.capacity);
    assert b.dropped + |b.records| == p.queue.dropped + |p.queue.records|;
    var skipped := SkipDropped(p.ring, b.dropped);
    assert skipped.next == p.ring.next + b.dropped;
    AdmitAllFacts(skipped, b.records);
  }

  lemma SuffixOfSuffix(lines: seq<Bytes>, records: seq<Bytes>, n: nat)
    requires |records| <= |lines| && records == lines[|lines| - |records|..] && n <= |records|
    ensures lines[|lines| - |records| + n..] == records[n..]
  {
  }

  lemma CollectInOrder(p: Pipeline, generation: nat)
    requires Accounted(p, generation) && InOrder(p) && |p.lines| < U64_MAX
    ensures InOrder(Collected(p))
  {
    var b := Taken(p.queue, p.ring.capacity);
    SuffixOfSuffix(p.lines, p.queue.records, Excess(p.queue, p.ring.capacity));
    DrainInOrder(p.ring, b, p.lines);
  }

  lemma DrainInOrder(r: Ring, b: Batch, lines: seq<Bytes>)
    requires ValidRing(r) && Carries(r.records, lines, LineLimit(r))
    requires r.next - 1 + b.dropped + |b.records| == |lines| < U64_MAX
    requires AreNumbered(b.records, lines, r.next + b.dropped)
    ensures Carries(Drain(r, b).records, lines, LineLimit(r)) && LineLimit(Drain(r, b)) == LineLimit(r)
  {
    var skipped := SkipDropped(r, b.dropped);
    assert skipped.next == r.next + b.dropped;
    AdmitAllCarries(skipped, b.records, lines);
    AdmitAllFacts(skipped, b.records);
  }

  lemma DeliveryAccounts(c: Pipeline, generation: nat, limit: nat)
    requires Accounted(c, generation)
    ensures Accounted(Delivered(c, limit), generation)
  {
    ReadAccounts(c.ring, c.cursor, limit);
    var reply := Read(c.ring, c.cursor, limit);
    AscendingConcat(c.delivered, reply.records, Position(c.cursor), Position(reply.next));
  }

  lemma AscendingConcat(a: seq<Forwarded>, b: seq<Forwarded>, mid: nat, high: nat)
    requires Ascending(a) && Ascending(b) && Within(a, 0, mid) && Within(b, mid, high) && mid <= high
    ensures Ascending(a + b) && Within(a + b, 0, high)
  {
  }

  lemma CarriesConcat(a: seq<Forwarded>, b: seq<Forwarded>, from: seq<Forwarded>, lines: seq<Bytes>, limit: nat)
    requires Carries(a, lines, limit) && Carries(from, lines, limit) && forall f :: f in b ==> f in from
    ensures Carries(a + b, lines, limit)
  {
    forall i | 0 <= i < |b|
      ensures 1 <= b[i].sequence <= |lines| && b[i].message == Truncate(lines[b[i].sequence - 1], limit)
    {
      assert b[i] in b;
    }
  }

  lemma CarriesMoreLines(rs: seq<Forwarded>, lines: seq<Bytes>, m: Bytes, limit: nat)
    requires Carries(rs, lines, limit)
    ensures Carries(rs, lines + [m], limit)
  {
  }

  lemma StepAccounts(p: Pipeline, generation: nat, e: Event)
    requires Accounted(p, generation) && |Step(p, generation, e).lines| < U64_MAX
    ensures Accounted(Step(p, generation, e), generation)
  {
    match e
    case Line(m) => PushFacts(p.queue, generation, m);
    case Collect => CollectAccounts(p, generation);
    case ReadPage(limit) =>
      CollectAccounts(p, generation);
      DeliveryAccounts(Collected(p), generation, limit);
    case ReadHeld(limit) => DeliveryAccounts(p, generation, limit);
  }

  lemma PushInOrder(q: Queue, generation: nat, m: Bytes, lines: seq<Bytes>)
    requires ValidQueue(q) && q.generation == Some(generation) && q.dropped + |q.records| < U64_MAX
    requires |m| <= FORWARD_MAX_BYTES && |q.records| <= |lines| && q.records == lines[|lines| - |q.records|..]
    ensures var r := Push(q, generation, m).records;
            |r| <= |lines| + 1 && r == (lines + [m])[|lines| + 1 - |r|..]
  {
    PushFacts(q, generation, m);
    assert q.records + [m] == (lines + [m])[|lines| - |q.records|..];
    SuffixOfSuffix(lines + [m], q.records + [m], |q.records| + 1 - |Push(q, generation, m).records|);
  }

  lemma DeliveryInOrder(p: Pipeline, generation: nat, limit: nat)
    requires Accounted(p, generation) && InOrder(p)
    ensures InOrder(Delivered(p, limit))
  {
    ReadAccounts(p.ring, p.cursor, limit);
    CarriesConcat(p.delivered, Read(p.ring, p.cursor, limit).records, p.ring.records, p.lines, LineLimit(p.ring));
  }

  /** A line over the queue's bound, which is counted ahead of whatever is still queued. */
  predicate Oversized(e: Event) {
    e.Line? && |e.m| > FORWARD_MAX_BYTES
  }

  lemma LineInOrder(p: Pipeline, generation: nat, m: Bytes)
    requires Accounted(p, generation) && InOrder(p) && |p.lines| + 1 < U64_MAX
    requires |m| > FORWARD_MAX_BYTES ==> p.queue.records == []
    ensures InOrder(Step(p, generation, Line(m)))
  {
    if |m| <= FORWARD_MAX_BYTES {
      PushInOrder(p.queue, generation, m, p.lines);
    }
    CarriesMoreLines(p.ring.records, p.lines, m, LineLimit(p.ring));
    CarriesMoreLines(p.delivered, p.lines, m, LineLimit(p.ring));
  }

  lemma StepInOrder(p: Pipeline, generation: nat, e: Event)
    requires Accounted(p, generation) && InOrder(p) && |Step(p, generation, e).lines| < U64_MAX
    requires Oversized(e) ==> p.queue.records == []
    ensures InOrder(Step(p, generation, e))
  {
    match e
    case Line(m) => LineInOrder(p, generation, m);
    case Collect => CollectInOrder(p, generation);
    case ReadPage(limit) =>
      CollectAccounts(p, generation);
      CollectInOrder(p, generation);
      DeliveryInOrder(Collected(p), generation, limit);
    case ReadHeld(limit) => DeliveryInOrder(p, generation, limit);
  }

  /** An oversized line keeps the order exactly when nothing is queued before it. */
  lemma OversizedStep(p: Pipeline, generation: nat, e: Event)
    requires Accounted(p, generation) && InOrder(p) && Oversized(e) && |p.lines| + 1 < U64_MAX
    ensures InOrder(Step(p, generation, e)) <==> p.queue.records == []
  {
    if p.queue.records == [] {
      StepInOrder(p, generation, e);
    }
    var q, lines := p.queue.records, p.lines + [e.m];
    if q != [] {
      LastWithinTotal(q);
      assert lines[|lines| - |q|..][|q| - 1] == e.m;
    }
  }

  lemma {:induction false} LastWithinTotal(records: seq<Bytes>)
    requires records != []
    ensures |records[|records| - 1]| <= Total(records)
    decreases |records|
  {
    if |records| > 1 {
      LastWithinTotal(records[1..]);
    }
  }

  // ---------------------------------------------------------------------------
  // Runs
  // ---------------------------------------------------------------------------

  /** The state before event `k`. */
  function Before(start: Pipeline, generation: nat, events: seq<Event>, k: nat): Pipeline
    requires k <= |events|
  {
    Run(start, generation, events[..k])
  }

  lemma OneMore(start: Pipeline, generation: nat, events: seq<Event>, k: nat)
    requires k < |events|
    ensures Before(start, generation, events, k + 1) ==
            Step(Before(start, generation, events, k), generation, events[k])
  {
    assert events[..k + 1][..k] == events[..k];
  }

  lemma {:induction false} LinesGrow(start: Pipeline, generation: nat, events: seq<Event>, k: nat, n: nat)
    requires k <= n <= |events|
    ensures Before(start, generation, events, k).lines <= Before(start, generation, events, n).lines
    decreases n
  {
    if k < n {
      LinesGrow(start, generation, events, k, n - 1);
      OneMore(start, generation, events, n - 1);
    }
  }

  /** Main result. Over every interleaving of lines, drains and paged reads (fewer than 2^64 - 1
      lines, any number of reads): delivered sequence numbers strictly increase, and delivered
      plus reported losses equal the cursor. */
  lemma {:induction false} EveryLineIsAccountedFor(start: Pipeline, generation: nat, events: seq<Event>, k: nat)
    requires Fresh(start, generation) && k <= |events| && |Before(start, generation, events, k).lines| < U64_MAX
    ensures Accounted(Before(start, generation, events, k), generation)
    decreases k
  {
    if k > 0 {
      LinesGrow(start, generation, events, k - 1, k);
      EveryLineIsAccountedFor(start, generation, events, k - 1);
      OneMore(start, generation, events, k - 1);
      StepAccounts(Before(start, generation, events, k - 1), generation, events[k - 1]);
    }
  }

  /** Every oversized line arrives when the queue is empty. */
  ghost predicate OversizedOnEmpty(start: Pipeline, generation: nat, events: seq<Event>, n: nat)
    requires n <= |events|
  {
    forall k :: 0 <= k < n && Oversized(events[k]) ==> Before(start, generation, events, k).queue.records == []
  }

  lemma {:induction false} NumbersFollowLines(start: Pipeline, generation: nat, events: seq<Event>, k: nat)
    requires Fresh(start, generation) && k <= |events| && |Before(start, generation, events, k).lines| < U64_MAX
    requires OversizedOnEmpty(start, generation, events, k)
    ensures InOrder(Before(start, generation, events, k))
    decreases k
  {
    if k > 0 {
      LinesGrow(start, generation, events, k - 1, k);
      EveryLineIsAccountedFor(start, generation, events, k - 1);
      NumbersFollowLines(start, generation, events, k - 1);
      InOrderNext(start, generation, events, k - 1);
    }
  }

  lemma InOrderNext(start: Pipeline, generation: nat, events: seq<Event>, k: nat)
    requires k < |events| && |Before(start, generation, events, k + 1).lines| < U64_MAX
    requires var p := Before(start, generation, events, k);
             Accounted(p, generation) && InOrder(p) && (Oversized(events[k]) ==> p.queue.records == [])
    ensures InOrder(Before(start, generation, events, k + 1))
  {
    OneMore(start, generation, events, k);
    StepInOrder(Before(start, generation, events, k), generation, events[k]);
  }

  /** Throughout a run what is queued is the tail of the lines and number s carries line s if and
      only if every oversized line arrives when the queue is empty. */
  lemma NothingIsOutOfPlaceExactly(start: Pipeline, generation: nat, events: seq<Event>)
    requires Fresh(start, generation) && |Before(start, generation, events, |events|).lines| < U64_MAX
    ensures OversizedOnEmpty(start, generation, events, |events|) <==>
            forall k :: 0 <= k <= |events| ==> InOrder(Before(start, generation, events, k))
  {
    var n := |events|;
    if OversizedOnEmpty(start, generation, events, n) {
      forall k | 0 <= k <= n ensures InOrder(Before(start, generation, events, k)) {
        LinesGrow(start, generation, events, k, n);
        NumbersFollowLines(start, generation, events, k);
      }
    }
    if forall k :: 0 <= k <= n ==> InOrder(Before(start, generation, events, k)) {
      forall k | 0 <= k < n && Oversized(events[k]) ensures Before(start, generation, events, k).queue.records == [] {
        var p := Before(start, generation, events, k);
        LinesGrow(start, generation, events, k, n);
        LinesGrow(start, generation, events, k + 1, n);
        EveryLineIsAccountedFor(start, generation, events, k);
        OneMore(start, generation, events, k);
        assert InOrder(Before(start, generation, events, k + 1));
        OversizedStep(p, generation, events[k]);
      }
    }
  }

  /** Main result. A read that drains and leaves nothing newer in the ring has accounted for
      every line the Core has written so far. */
  lemma ExhaustedReadAccountsForAllLines(start: Pipeline, generation: nat, events: seq<Event>, limit: nat)
    requires Fresh(start, generation) && |Before(start, generation, events, |events|).lines| < U64_MAX
    ensures var p := Step(Before(start, generation, events, |events|), generation, ReadPage(limit));
            !AnyNewer(p.ring.records, p.cursor) ==> |p.delivered| + p.lost == |p.lines|
  {
    var before := Before(start, generation, events, |events|);
    EveryLineIsAccountedFor(start, generation, events, |events|);
    CollectAccounts(before, generation);
    var c := Collected(before);
    ReadAccounts(c.ring, c.cursor, limit);
    DeliveryAccounts(c, generation, limit);
  }

  /** A line over the queue's bound is counted, but ahead of the lines still queued: with two
      lines, the second one too long, the first is delivered as number 2. */
  lemma OversizedLineShiftsNumbers(start: Pipeline, generation: nat, small: Bytes, big: Bytes)
    requires Fresh(start, generation) && |small| <= LineLimit(start.ring) && |big| > FORWARD_MAX_BYTES
    ensures var p := Run(start, generation, [Line(small), Line(big), Collect]);
            p.ring.records == [Forwarded(2, small)]
  {
    ThreeSteps(start, generation, Line(small), Line(big), Collect);
    var a := Step(start, generation, Line(small));
    var b := Step(a, generation, Line(big));
    assert a.queue.records == [small] && b.queue.records == [small] && b.queue.dropped == 1;
    OneLineDrained(b.ring, Taken(b.queue, b.ring.capacity), small);
  }

  lemma ThreeSteps(start: Pipeline, generation: nat, a: Event, b: Event, c: Event)
    ensures Run(start, generation, [a, b, c]) == Step(Step(Step(start, generation, a), generation, b), generation, c)
  {
    assert [a, b, c][..2] == [a, b];
    assert [a, b][..1] == [a];
    assert [a][..0] == [];
    assert Run(start, generation, [a]) == Step(start, generation, a);
    assert Run(start, generation, [a, b]) == Step(Step(start, generation, a), generation, b);
  }

  lemma OneLineDrained(r: Ring, batch: Batch, line: Bytes)
    requires r.records == [] && r.next == 1 && r.capacity >= 1 && |line| <= LineLimit(r)
    requires batch == Batch([line], 1)
    ensures Drain(r, batch).records == [Forwarded(2, line)]
  {
    var skipped := SkipDropped(r, 1);
    assert [line][..0] == [];
    assert AdmitAll(skipped, [line]) == Admit(skipped, line);
  }

  /** What a line too long for a page does to its reader: nothing is delivered and the cursor
      stays, however often it reads. */
  lemma {:induction false} LongLineStalls(start: Pipeline, generation: nat, m: Bytes, limits: seq<nat>)
    requires Fresh(start, generation) && BATCH_MAX_BYTES < |m| <= LineLimit(start.ring)
    ensures var p := AfterReads(Step(start, generation, Line(m)), generation, limits);
            p.cursor.None? && p.delivered == [] && p.lost == 0 &&
            (limits != [] ==> p.ring.records == [Forwarded(1, m)] && p.queue.records == [])
    decreases |limits|
  {
    var first := Step(start, generation, Line(m));
    if limits != [] {
      var limit := limits[|limits| - 1];
      LongLineStalls(start, generation, m, limits[..|limits| - 1]);
      var p := AfterReads(first, generation, limits[..|limits| - 1]);
      var c := Collected(p);
      if |limits| == 1 {
        OneLineCollected(start, generation, m);
      } else {
        assert c.ring.records == p.ring.records;
      }
      assert c.ring.records == [Forwarded(1, m)];
      assert Newer(c.ring.records[0], None);
      assert Page(c.ring.records, None, Min(limit, c.ring.capacity), BATCH_MAX_BYTES) == [];
    }
  }

  function AfterReads(p: Pipeline, generation: nat, limits: seq<nat>): Pipeline {
    if limits == [] then p
    else Step(AfterReads(p, generation, limits[..|limits| - 1]), generation, ReadPage(limits[|limits| - 1]))
  }

  lemma OneLineCollected(start: Pipeline, generation: nat, m: Bytes)
    requires Fresh(start, generation) && |m| <= LineLimit(start.ring)
    ensures var c := Collected(Step(start, generation, Line(m)));
            c.ring.records == [Forwarded(1, m)] && c.queue.records == [] && c.queue.dropped == 0
  {
    var p := Step(start, generation, Line(m));
    assert p.queue.records == [m] && p.queue.dropped == 0;
    var b := Taken(p.queue, p.ring.capacity);
    assert b == Batch([m], 0);
    assert [m][..0] == [];
    assert AdmitAll(p.ring, [m]) == Admit(p.ring, m);
  }
}
