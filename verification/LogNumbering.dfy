/** When a log line gets its own number: the drains of a run of LogReading.dfy, with lines over the
    queue's byte bound, which are counted as lost ahead of whatever is still queued. */
module LogNumbering {
  import opened Common
  import opened Utf8
  import opened LogPipeline
  import opened LogReading

  /** The lines the queue can hold. */
  function Fitting(lines: seq<Bytes>): seq<Bytes> {
    if lines == [] then []
    else
      var last := lines[|lines| - 1];
      Fitting(lines[..|lines| - 1]) + if |last| <= FORWARD_MAX_BYTES then [last] else []
  }

  /** How many lines came after the last oversized one. */
  function SinceOversized(lines: seq<Bytes>): nat {
    if lines == [] || |lines[|lines| - 1]| > FORWARD_MAX_BYTES then 0 else 1 + SinceOversized(lines[..|lines| - 1])
  }

  ghost predicate IsTail(q: seq<Bytes>, all: seq<Bytes>) {
    |q| <= |all| && q == all[|all| - |q|..]
  }

  lemma {:induction false} FittingFits(lines: seq<Bytes>)
    ensures |Fitting(lines)| <= |lines|
    ensures forall i :: 0 <= i < |Fitting(lines)| ==> |Fitting(lines)[i]| <= FORWARD_MAX_BYTES
    decreases |lines|
  {
    if lines != [] {
      FittingFits(lines[..|lines| - 1]);
    }
  }

  lemma TailOfTail(q: seq<Bytes>, all: seq<Bytes>, n: nat)
    requires IsTail(q, all) && n <= |q|
    ensures IsTail(q[n..], all)
  {
  }

  lemma TailGrows(q: seq<Bytes>, all: seq<Bytes>, m: Bytes)
    requires IsTail(q, all)
    ensures IsTail(q + [m], all + [m])
  {
  }

  lemma FittingAppend(lines: seq<Bytes>, m: Bytes)
    ensures Fitting(lines + [m]) == Fitting(lines) + if |m| <= FORWARD_MAX_BYTES then [m] else []
  {
    assert (lines + [m])[..|lines|] == lines;
  }

  // ---------------------------------------------------------------------------
  // One drain
  // ---------------------------------------------------------------------------

  /** The batch a drain would number now. */
  function NextBatch(p: Pipeline): Batch {
    Taken(p.queue, p.ring.capacity)
  }

  /** A drain now gives each of its lines that line's own number. */
  ghost predicate DrainNumbers(p: Pipeline) {
    AreNumbered(NextBatch(p).records, p.lines, p.ring.next + NextBatch(p).dropped)
  }

  /** A drain now takes only lines that came after the last oversized one. */
  predicate DrainIsRecent(p: Pipeline) {
    |NextBatch(p).records| <= SinceOversized(p.lines)
  }

  ghost predicate QueueFits(p: Pipeline) {
    IsTail(p.queue.records, Fitting(p.lines))
  }

  lemma NumberedFront(q: seq<Bytes>, lines: seq<Bytes>)
    requires q != [] && |q| <= |lines| && q[|q| - 1] == lines[|lines| - 1]
    ensures AreNumbered(q, lines, |lines| - |q| + 1) <==>
            AreNumbered(q[..|q| - 1], lines[..|lines| - 1], |lines| - |q| + 1)
  {
    var front := lines[..|lines| - 1];
    if AreNumbered(q[..|q| - 1], front, |lines| - |q| + 1) {
      forall i | 0 <= i < |q| ensures q[i] == lines[|lines| - |q| + i] {
        assert i < |q| - 1 ==> q[..|q| - 1][i] == front[|lines| - |q| + i];
      }
    }
  }

  /** The last lines the queue can hold are the last lines written exactly if they all came after
      the last oversized one. */
  lemma {:induction false} TailIsNumbered(q: seq<Bytes>, lines: seq<Bytes>)
    requires IsTail(q, Fitting(lines))
    ensures |q| <= |lines| && (AreNumbered(q, lines, |lines| - |q| + 1) <==> |q| <= SinceOversized(lines))
    decreases |lines|
  {
    FittingFits(lines);
    if q != [] {
      var n := |lines|;
      var front, last := lines[..n - 1], lines[n - 1];
      var all := Fitting(lines);
      assert q[|q| - 1] == all[|all| - 1];
      if |last| > FORWARD_MAX_BYTES {
        assert |all[|all| - 1]| <= FORWARD_MAX_BYTES;
      } else {
        assert all == Fitting(front) + [last];
        assert IsTail(q[..|q| - 1], Fitting(front));
        TailIsNumbered(q[..|q| - 1], front);
        NumberedFront(q, lines);
      }
    }
  }

  /** Main result. A drain gives every line its own number if and only if it takes only lines
      that came after the last oversized one. */
  lemma DrainIsExact(p: Pipeline, generation: nat)
    requires Accounted(p, generation) && QueueFits(p) && |p.lines| < U64_MAX
    ensures DrainNumbers(p) <==> DrainIsRecent(p)
  {
    var b := NextBatch(p);
    TailOfTail(p.queue.records, Fitting(p.lines), Excess(p.queue, p.ring.capacity));
    TailIsNumbered(b.records, p.lines);
    assert p.ring.next + b.dropped == |p.lines| - |b.records| + 1;
  }

  // ---------------------------------------------------------------------------
  // Runs
  // ---------------------------------------------------------------------------

  predicate Drains(e: Event) {
    e.Collect? || e.ReadPage?
  }

  /** Whatever is held or was delivered under number s is line s, cut to the line limit. */
  ghost predicate Numbered(p: Pipeline) {
    Carries(p.ring.records, p.lines, LineLimit(p.ring)) && Carries(p.delivered, p.lines, LineLimit(p.ring))
  }

  lemma StepFits(p: Pipeline, generation: nat, e: Event)
    requires Accounted(p, generation) && QueueFits(p) && |Step(p, generation, e).lines| < U64_MAX
    ensures QueueFits(Step(p, generation, e))
  {
    match e
    case Line(m) =>
      FittingAppend(p.lines, m);
      if |m| <= FORWARD_MAX_BYTES {
        PushFacts(p.queue, generation, m);
        var q := p.queue.records + [m];
        TailGrows(p.queue.records, Fitting(p.lines), m);
        TailOfTail(q, Fitting(p.lines) + [m], |q| - |Push(p.queue, generation, m).records|);
      } else {
        assert Fitting(p.lines) + [] == Fitting(p.lines);
      }
    case _ =>
  }

  lemma DrainKeepsNumbers(p: Pipeline, generation: nat)
    requires Accounted(p, generation) && Numbered(p) && DrainNumbers(p) && |p.lines| < U64_MAX
    ensures Numbered(Collected(p))
  {
    DrainInOrder(p.ring, NextBatch(p), p.lines);
  }

  lemma DeliveryKeepsNumbers(p: Pipeline, generation: nat, limit: nat)
    requires Accounted(p, generation) && Numbered(p)
    ensures Numbered(Delivered(p, limit))
  {
    ReadAccounts(p.ring, p.cursor, limit);
    CarriesConcat(p.delivered, Read(p.ring, p.cursor, limit).records, p.ring.records, p.lines, LineLimit(p.ring));
  }

  lemma StepKeepsNumbers(p: Pipeline, generation: nat, e: Event)
    requires Accounted(p, generation) && Numbered(p) && |Step(p, generation, e).lines| < U64_MAX
    requires Drains(e) ==> DrainNumbers(p)
    ensures Numbered(Step(p, generation, e))
  {
    match e
    case Line(m) =>
      CarriesMoreLines(p.ring.records, p.lines, m, LineLimit(p.ring));
      CarriesMoreLines(p.delivered, p.lines, m, LineLimit(p.ring));
    case Collect => DrainKeepsNumbers(p, generation);
    case ReadPage(limit) =>
      DrainKeepsNumbers(p, generation);
      CollectAccounts(p, generation);
      DeliveryKeepsNumbers(Collected(p), generation, limit);
    case ReadHeld(limit) => DeliveryKeepsNumbers(p, generation, limit);
  }

  lemma {:induction false} QueueFitsOverRuns(start: Pipeline, generation: nat, events: seq<Event>, k: nat)
    requires Fresh(start, generation) && k <= |events| && |Before(start, generation, events, k).lines| < U64_MAX
    ensures QueueFits(Before(start, generation, events, k))
    decreases k
  {
    if k > 0 {
      LinesGrow(start, generation, events, k - 1, k);
      EveryLineIsAccountedFor(start, generation, events, k - 1);
      QueueFitsOverRuns(start, generation, events, k - 1);
      OneMore(start, generation, events, k - 1);
      StepFits(Before(start, generation, events, k - 1), generation, events[k - 1]);
    }
  }

  /** Every drain of the run gives each line its own number. */
  ghost predicate EveryDrainNumbers(start: Pipeline, generation: nat, events: seq<Event>) {
    forall k :: 0 <= k < |events| && Drains(events[k]) ==> DrainNumbers(Before(start, generation, events, k))
  }

  /** Every drain of the run takes only lines that came after the last oversized one. */
  predicate EveryDrainIsRecent(start: Pipeline, generation: nat, events: seq<Event>) {
    forall k :: 0 <= k < |events| && Drains(events[k]) ==> DrainIsRecent(Before(start, generation, events, k))
  }

  lemma {:induction false} NumbersStayRight(start: Pipeline, generation: nat, events: seq<Event>, k: nat)
    requires Fresh(start, generation) && k <= |events| && |Before(start, generation, events, k).lines| < U64_MAX
    requires EveryDrainNumbers(start, generation, events)
    ensures Numbered(Before(start, generation, events, k))
    decreases k
  {
    if k > 0 {
      LinesGrow(start, generation, events, k - 1, k);
      EveryLineIsAccountedFor(start, generation, events, k - 1);
      NumbersStayRight(start, generation, events, k - 1);
      OneMore(start, generation, events, k - 1);
      StepKeepsNumbers(Before(start, generation, events, k - 1), generation, events[k - 1]);
    }
  }

  /** Main result. Over a run every line that is numbered gets its own number if and only if every
      drain takes only lines that came after the last oversized one; and then number s carries
      line s throughout, in the ring and at the reader. */
  lemma NumbersFollowLinesExactly(start: Pipeline, generation: nat, events: seq<Event>)
    requires Fresh(start, generation) && |Before(start, generation, events, |events|).lines| < U64_MAX
    ensures EveryDrainNumbers(start, generation, events) <==> EveryDrainIsRecent(start, generation, events)
    ensures EveryDrainIsRecent(start, generation, events) ==>
              forall k :: 0 <= k <= |events| ==> Numbered(Before(start, generation, events, k))
  {
    var n := |events|;
    forall k | 0 <= k < n
      ensures DrainNumbers(Before(start, generation, events, k)) <==>
              DrainIsRecent(Before(start, generation, events, k))
    {
      LinesGrow(start, generation, events, k, n);
      EveryLineIsAccountedFor(start, generation, events, k);
      QueueFitsOverRuns(start, generation, events, k);
      DrainIsExact(Before(start, generation, events, k), generation);
    }
    if EveryDrainIsRecent(start, generation, events) {
      forall k | 0 <= k <= n ensures Numbered(Before(start, generation, events, k)) {
        LinesGrow(start, generation, events, k, n);
        NumbersStayRight(start, generation, events, k);
      }
    }
  }

  /** It is enough that every oversized line arrives when the queue is empty. */
  lemma OversizedOnEmptySuffices(start: Pipeline, generation: nat, events: seq<Event>)
    requires Fresh(start, generation) && |Before(start, generation, events, |events|).lines| < U64_MAX
    requires OversizedOnEmpty(start, generation, events, |events|)
    ensures EveryDrainNumbers(start, generation, events)
  {
    forall k | 0 <= k < |events| && Drains(events[k]) ensures DrainNumbers(Before(start, generation, events, k)) {
      LinesGrow(start, generation, events, k, |events|);
      EveryLineIsAccountedFor(start, generation, events, k);
      NumbersFollowLines(start, generation, events, k);
      InOrderDrains(Before(start, generation, events, k), generation);
    }
  }

  lemma InOrderDrains(p: Pipeline, generation: nat)
    requires Accounted(p, generation) && InOrder(p) && |p.lines| < U64_MAX
    ensures DrainNumbers(p)
  {
    TailOfTail(p.queue.records, p.lines, Excess(p.queue, p.ring.capacity));
    assert p.ring.next + NextBatch(p).dropped == |p.lines| - |NextBatch(p).records| + 1;
  }

  /** It is not necessary: if the queued line is evicted before the drain, the next one gets its
      own number all the same. */
  lemma EvictionRestoresNumbers(start: Pipeline, generation: nat, a: Bytes, big: Bytes, c: Bytes)
    requires Fresh(start, generation) && start.queue.capacity == 1
    requires |a| <= FORWARD_MAX_BYTES < |big| && |c| <= LineLimit(start.ring)
    ensures var events := [Line(a), Line(big), Line(c), Collect];
            Run(start, generation, events).ring.records == [Forwarded(3, c)] &&
            !OversizedOnEmpty(start, generation, events, 4)
  {
    var events := [Line(a), Line(big), Line(c), Collect];
    var p1 := Step(start, generation, Line(a));
    var p2 := Step(p1, generation, Line(big));
    var p3 := Step(p2, generation, Line(c));
    assert events[..3] == [Line(a), Line(big), Line(c)] && events[..1] == [Line(a)];
    ThreeSteps(start, generation, Line(a), Line(big), Line(c));
    assert Run(start, generation, [Line(a)]) == p1 by {
      assert [Line(a)][..0] == [];
    }
    assert p1.queue.records == [a] && p2.queue.records == [a];
    EvictedByNext(p2.queue, generation, a, c);
    assert Before(start, generation, events, 1).queue.records != [];
    LastIsDrained(p3.ring, Taken(p3.queue, p3.ring.capacity), c);
  }

  lemma EvictedByNext(q: Queue, generation: nat, a: Bytes, c: Bytes)
    requires q.generation == Some(generation) && q.capacity == 1 && q.records == [a] && q.dropped == 1
    requires |c| <= FORWARD_MAX_BYTES
    ensures var r := Push(q, generation, c); r.records == [c] && r.dropped == 2 && r.capacity == 1
  {
    var next := q.(records := q.records[1..], bytes := SaturatingSub(q.bytes, |a|), dropped := 2);
    assert next.records == [];
    assert EvictFor(q, |c|) == EvictFor(next, |c|) == next;
  }

  lemma LastIsDrained(r: Ring, b: Batch, c: Bytes)
    requires r.records == [] && r.next == 1 && r.capacity >= 1 && |c| <= LineLimit(r) && b == Batch([c], 2)
    ensures Drain(r, b).records == [Forwarded(3, c)]
  {
    var skipped := SkipDropped(r, 2);
    assert [c][..0] == [];
    assert AdmitAll(skipped, [c]) == Admit(skipped, c);
  }
}
