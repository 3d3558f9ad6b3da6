/** The delay-probe scheduler of `src/scheduler.rs`: an ordered queue with a deadline index, an
    in-flight table, generations and attempt ids. Node ids are represented by their rank. */
module ProbeScheduler {
  import opened Common

  const WORKERS: nat := 16
  const INTERVAL_MS: nat := 300_000
  const MAX_ACTIVE_NODES: nat := 10_000

  // ---------------------------------------------------------------------------
  // Order and choice
  // ---------------------------------------------------------------------------

  datatype Due = Due(at: nat, node: nat)

  predicate Before(a: Due, b: Due) {
    a.at < b.at || (a.at == b.at && a.node < b.node)
  }

  ghost predicate IsFirst(q: set<Due>, d: Due) {
    d in q && forall x :: x in q && x != d ==> Before(d, x)
  }

  lemma {:induction false} FirstExists(q: set<Due>) returns (d: Due)
    requires q != {}
    ensures IsFirst(q, d)
    decreases |q|
  {
    var e :| e in q;
    d := e;
    var rest := q - {e};
    if rest != {} {
      var r := FirstExists(rest);
      if Before(r, e) {
        d := r;
      }
      forall x | x in q && x != d ensures Before(d, x) {
        assert x == e || x in rest;
      }
    }
  }

  ghost predicate Sorted(s: seq<Due>) {
    forall i, j :: 0 <= i < j < |s| ==> Before(s[i], s[j])
  }

  /** The dispatch rule: the least due entries, in order, as many as fit. */
  ghost predicate Dispatch(q: set<Due>, now: nat, room: nat, taken: seq<Due>) {
    Sorted(taken) && |taken| <= room &&
    (forall d :: d in taken ==> d in q && d.at <= now) &&
    (forall x :: x in q && x.at <= now && x !in taken ==> |taken| == room && forall d :: d in taken ==> Before(d, x))
  }

  /** The rule determines the dispatched entries. */
  lemma {:induction false} DispatchIsDetermined(q: set<Due>, now: nat, room: nat, a: seq<Due>, b: seq<Due>)
    requires Dispatch(q, now, room, a) && Dispatch(q, now, room, b)
    ensures a == b
    decreases room
  {
    assert a == [] || a[0] in a;
    assert b == [] || b[0] in b;
    if a != [] && b != [] {
      SameFirst(q, now, room, a, b);
      var q' := q - {a[0]};
      DispatchRest(q, now, room, a);
      DispatchRest(q, now, room, b);
      DispatchIsDetermined(q', now, room - 1, a[1..], b[1..]);
      assert a == [a[0]] + a[1..] && b == [b[0]] + b[1..];
    }
  }

  lemma SameFirst(q: set<Due>, now: nat, room: nat, a: seq<Due>, b: seq<Due>)
    requires Dispatch(q, now, room, a) && Dispatch(q, now, room, b) && a != [] && b != []
    ensures a[0] == b[0]
  {
    assert a[0] in a && b[0] in b;
    FirstIsLeast(q, now, room, a, b[0]);
    FirstIsLeast(q, now, room, b, a[0]);
  }

  lemma FirstIsLeast(q: set<Due>, now: nat, room: nat, a: seq<Due>, x: Due)
    requires Dispatch(q, now, room, a) && a != [] && x in q && x.at <= now
    ensures x == a[0] || Before(a[0], x)
  {
    assert a[0] in a;
    if x in a {
      var i :| 0 <= i < |a| && a[i] == x;
    }
  }

  lemma DispatchRest(q: set<Due>, now: nat, room: nat, a: seq<Due>)
    requires Dispatch(q, now, room, a) && a != []
    ensures room >= 1 && Dispatch(q - {a[0]}, now, room - 1, a[1..])
  {
    var rest := a[1..];
    forall d | d in rest ensures d in q - {a[0]} && d.at <= now {
      var i :| 0 <= i < |rest| && rest[i] == d;
      assert a[i + 1] == d && Before(a[0], a[i + 1]);
      assert d in a;
    }
    forall x | x in q - {a[0]} && x.at <= now && x !in rest
      ensures |rest| == room - 1 && forall d :: d in rest ==> Before(d, x)
    {
      assert x !in a by {
        assert a == [a[0]] + rest;
      }
      forall d | d in rest ensures Before(d, x) {
        assert d in a;
      }
    }
  }

  // ---------------------------------------------------------------------------
  // The scheduler
  // ---------------------------------------------------------------------------

  datatype InFlight = InFlight(attempt: nat, generation: nat)

  datatype ProbeOutcome = Success(delay: nat) | TimedOut | Unavailable

  datatype Sample = Sample(outcome: ProbeOutcome, at: nat, generation: nat)

  datatype Task = Task(attempt: nat, generation: nat, node: nat, due: nat)

  datatype Completion = Completion(task: Task, outcome: ProbeOutcome, at: nat)

  datatype CompletionStatus = Rescheduled(next: nat) | LateGeneration | UnknownTask

  datatype ResetError = NonIncreasingGeneration | NodeLimitExceeded

  function NextNonzero(v: nat): nat {
    if v >= U64_MAX then 1 else v + 1
  }

  /** The id that is given out `k` ids after `first`. */
  function IdAfter(first: nat, k: nat): nat {
    if k == 0 then first else NextNonzero(IdAfter(first, k - 1))
  }

  lemma {:induction false} IdAfterIs(first: nat, k: nat)
    requires 1 <= first <= U64_MAX && k <= U64_MAX
    ensures IdAfter(first, k) == if first + k <= U64_MAX then first + k else first + k - U64_MAX
    decreases k
  {
    if k > 0 {
      IdAfterIs(first, k - 1);
    }
  }

  /** The tasks have the ids that are given out from `first` on. */
  ghost predicate Numbered(tasks: seq<Task>, first: nat) {
    forall i :: 0 <= i < |tasks| ==> tasks[i].attempt == IdAfter(first, i)
  }

  lemma NumberedNext(tasks: seq<Task>, task: Task, first: nat, next: nat)
    requires Numbered(tasks, first) && task.attempt == IdAfter(first, |tasks|) && next == NextNonzero(task.attempt)
    ensures Numbered(tasks + [task], first) && next == IdAfter(first, |tasks + [task]|)
  {
  }

  lemma NumberedDiffer(tasks: seq<Task>, first: nat)
    requires 1 <= first <= U64_MAX && Numbered(tasks, first) && |tasks| < U64_MAX
    ensures forall i, j :: 0 <= i < j < |tasks| ==> tasks[i].attempt != tasks[j].attempt
  {
    forall i, j | 0 <= i < j < |tasks| ensures tasks[i].attempt != tasks[j].attempt {
      IdsDiffer(first, i, j);
    }
  }

  /** Two ids differ unless a whole cycle of them lies between. */
  lemma IdsDiffer(first: nat, i: nat, j: nat)
    requires 1 <= first <= U64_MAX && i < j < U64_MAX
    ensures IdAfter(first, i) != IdAfter(first, j)
  {
    IdAfterIs(first, i);
    IdAfterIs(first, j);
  }

  ghost function QueueOf(deadlines: map<nat, nat>): set<Due> {
    set n | n in deadlines :: Due(deadlines[n], n)
  }

  lemma QueueOfRemove(deadlines: map<nat, nat>, n: nat)
    requires n in deadlines
    ensures QueueOf(deadlines - {n}) == QueueOf(deadlines) - {Due(deadlines[n], n)}
  {
    forall x ensures x in QueueOf(deadlines - {n}) <==> x in QueueOf(deadlines) - {Due(deadlines[n], n)} {
      if x in QueueOf(deadlines) - {Due(deadlines[n], n)} {
        assert x.node in deadlines - {n};
      }
    }
  }

  lemma QueueOfInsert(deadlines: map<nat, nat>, n: nat, at: nat)
    requires n !in deadlines
    ensures QueueOf(deadlines[n := at]) == QueueOf(deadlines) + {Due(at, n)}
  {
    forall x ensures x in QueueOf(deadlines[n := at]) <==> x in QueueOf(deadlines) + {Due(at, n)} {
      if x in QueueOf(deadlines) {
        assert x.node in deadlines[n := at];
      }
      if x == Due(at, n) {
        assert n in deadlines[n := at];
      }
    }
  }

  /** Active nodes are the queued and the in-flight ones, each in one place; the queue and the
      index describe the same map; in-flight work fits the workers. */
  ghost predicate Consistent(generation: Option<nat>, active: set<nat>, queue: set<Due>, deadlines: map<nat, nat>,
                             inFlight: map<nat, InFlight>)
  {
    Placed(active, deadlines.Keys, inFlight.Keys) && queue == QueueOf(deadlines) &&
    InFlightOf(generation, inFlight) && (generation.None? ==> active == {})
  }

  ghost predicate Placed(active: set<nat>, queued: set<nat>, running: set<nat>) {
    queued !! running && active == queued + running
  }

  ghost predicate InFlightOf(generation: Option<nat>, inFlight: map<nat, InFlight>) {
    |inFlight| <= WORKERS && forall n :: n in inFlight ==> generation == Some(inFlight[n].generation)
  }

  lemma DispatchedIsConsistent(generation: Option<nat>, active: set<nat>, queue: set<Due>, deadlines: map<nat, nat>,
                               inFlight: map<nat, InFlight>, entry: Due, f: InFlight)
    requires Consistent(generation, active, queue, deadlines, inFlight) && entry in queue && |inFlight| < WORKERS
    requires generation == Some(f.generation)
    ensures entry.node in deadlines && deadlines[entry.node] == entry.at && entry.node !in inFlight
    ensures |inFlight[entry.node := f]| == |inFlight| + 1
    ensures Consistent(generation, active, queue - {entry}, deadlines - {entry.node}, inFlight[entry.node := f])
  {
    var n := entry.node;
    QueueOfRemove(deadlines, n);
    assert n in deadlines && n in deadlines.Keys;
    assert (deadlines - {n}).Keys == deadlines.Keys - {n};
    OneMoreInFlight(generation, inFlight, n, f);
    MovedNode(deadlines.Keys, inFlight.Keys, active, n);
  }

  lemma OneMoreInFlight(generation: Option<nat>, inFlight: map<nat, InFlight>, n: nat, f: InFlight)
    requires InFlightOf(generation, inFlight) && |inFlight| < WORKERS && generation == Some(f.generation)
    requires n !in inFlight
    ensures InFlightOf(generation, inFlight[n := f]) && |inFlight[n := f]| == |inFlight| + 1
    ensures inFlight[n := f].Keys == inFlight.Keys + {n}
  {
    assert inFlight[n := f].Keys == inFlight.Keys + {n};
  }

  lemma OneLessInFlight(generation: Option<nat>, inFlight: map<nat, InFlight>, n: nat)
    requires InFlightOf(generation, inFlight)
    ensures InFlightOf(generation, inFlight - {n}) && (inFlight - {n}).Keys == inFlight.Keys - {n}
  {
    assert (inFlight - {n}).Keys == inFlight.Keys - {n};
    MoreElements((inFlight - {n}).Keys, inFlight.Keys);
  }

  lemma MovedNode(a: set<nat>, b: set<nat>, all: set<nat>, n: nat)
    requires Placed(all, a, b) && n in a
    ensures Placed(all, a - {n}, b + {n}) && Placed(all, b + {n}, a - {n})
  {
  }

  lemma RescheduledIsConsistent(generation: Option<nat>, active: set<nat>, queue: set<Due>, deadlines: map<nat, nat>,
                                inFlight: map<nat, InFlight>, n: nat, at: nat)
    requires Consistent(generation, active, queue, deadlines, inFlight) && n in inFlight
    ensures n !in deadlines
    ensures Consistent(generation, active, queue + {Due(at, n)}, deadlines[n := at], inFlight - {n})
  {
    assert n in inFlight.Keys;
    QueueOfInsert(deadlines, n, at);
    OneLessInFlight(generation, inFlight, n);
    assert deadlines[n := at].Keys == deadlines.Keys + {n};
    MovedNode(inFlight.Keys, deadlines.Keys, active, n);
  }

  ghost function NodeSet(nodes: seq<nat>): set<nat> {
    set n | n in nodes
  }

  ghost function AllAt(nodes: set<nat>, now: nat): map<nat, nat> {
    map n | n in nodes :: now
  }

  ghost predicate TaskMatches(t: Task, d: Due, generation: nat, inFlight: map<nat, InFlight>) {
    t.node == d.node && t.due == d.at && generation == t.generation &&
    t.node in inFlight && inFlight[t.node] == InFlight(t.attempt, t.generation)
  }

  /** The loop's bookkeeping: tasks and in-flight entries mirror what was taken. */
  ghost predicate Mirrors(tasks: seq<Task>, taken: seq<Due>, generation: nat,
                          before: map<nat, InFlight>, after: map<nat, InFlight>)
  {
    |tasks| == |taken| && |after| == |before| + |taken| &&
    (forall n :: n in before ==> n in after && after[n] == before[n]) &&
    (forall i :: 0 <= i < |tasks| ==> TaskMatches(tasks[i], taken[i], generation, after))
  }

  lemma MirrorsNext(tasks: seq<Task>, taken: seq<Due>, generation: nat, before: map<nat, InFlight>,
                    after: map<nat, InFlight>, entry: Due, task: Task, after': map<nat, InFlight>)
    requires Mirrors(tasks, taken, generation, before, after) && entry.node !in after
    requires after' == after[entry.node := InFlight(task.attempt, task.generation)] && |after'| == |after| + 1
    requires TaskMatches(task, entry, generation, after')
    ensures Mirrors(tasks + [task], taken + [entry], generation, before, after')
  {
    var ts, ds := tasks + [task], taken + [entry];
    forall i | 0 <= i < |ts| ensures TaskMatches(ts[i], ds[i], generation, after') {
      if i < |tasks| {
        assert TaskMatches(tasks[i], taken[i], generation, after);
      }
    }
  }

  lemma FreshIsConsistent(g: nat, active: set<nat>, now: nat)
    ensures Consistent(Some(g), active, QueueOf(AllAt(active, now)), AllAt(active, now), map[])
  {
    assert AllAt(active, now).Keys == active;
  }

  class Scheduler {
    var generation: Option<nat>
    var lastGeneration: Option<nat>
    var activeNodes: set<nat>
    var queue: set<Due>
    var queuedDeadlines: map<nat, nat>
    var inFlight: map<nat, InFlight>
    var samples: map<nat, Sample>
    var nextAttemptId: nat

    ghost predicate Valid()
      reads this
    {
      Consistent(generation, activeNodes, queue, queuedDeadlines, inFlight) &&
      (generation.Some? ==> lastGeneration == generation) && 1 <= nextAttemptId <= U64_MAX
    }

    constructor ()
      ensures Valid() && generation.None? && lastGeneration.None?
    {
      generation, lastGeneration := None, None;
      activeNodes, queue, queuedDeadlines, inFlight, samples := {}, {}, map[], map[], map[];
      nextAttemptId := 1;
    }

    /** The distinct nodes, or an error as soon as there are too many. */
    static method CollectNodes(nodes: seq<nat>) returns (r: Result<set<nat>, ResetError>)
      ensures r.Ok? ==> r.value == NodeSet(nodes) && |r.value| <= MAX_ACTIVE_NODES
      ensures r.Err? ==> r.error == NodeLimitExceeded && |NodeSet(nodes)| > MAX_ACTIVE_NODES
    {
      var active: set<nat> := {};
      for i := 0 to |nodes|
        invariant active == NodeSet(nodes[..i]) && |active| <= MAX_ACTIVE_NODES
      {
        assert nodes[..i + 1] == nodes[..i] + [nodes[i]];
        active := active + {nodes[i]};
        if |active| > MAX_ACTIVE_NODES {
          MoreElements(active, NodeSet(nodes));
          return Err(NodeLimitExceeded);
        }
      }
      assert nodes[..|nodes|] == nodes;
      r := Ok(active);
    }

    method Reset(g: nat, nodes: seq<nat>, now: nat) returns (r: Result<(), ResetError>)
      requires Valid()
      modifies this
      ensures Valid()
      ensures r == Err(NonIncreasingGeneration) <==> old(lastGeneration).Some? && g <= old(lastGeneration).value
      ensures r == Err(NodeLimitExceeded) ==> |NodeSet(nodes)| > MAX_ACTIVE_NODES
      ensures r.Ok? ==> generation == Some(g) && activeNodes == NodeSet(nodes) && |activeNodes| <= MAX_ACTIVE_NODES
      ensures r.Ok? ==> inFlight == map[] && samples == map[] && queuedDeadlines == AllAt(activeNodes, now)
      ensures r.Ok? ==> lastGeneration == Some(g)
      ensures r.Err? ==> generation == old(generation) && lastGeneration == old(lastGeneration) &&
                         activeNodes == old(activeNodes) && queue == old(queue) &&
                         queuedDeadlines == old(queuedDeadlines) && inFlight == old(inFlight) && samples == old(samples)
      ensures nextAttemptId == old(nextAttemptId)
    {
      if lastGeneration.Some? && g <= lastGeneration.value {
        return Err(NonIncreasingGeneration);
      }
      var collected := CollectNodes(nodes);
      if collected.Err? {
        return Err(collected.error);
      }
      generation, lastGeneration := Some(g), Some(g);
      activeNodes := collected.value;
      inFlight, samples := map[], map[];
      QueueAll(now);
      FreshIsConsistent(g, activeNodes, now);
      r := Ok(());
    }

    method QueueAll(now: nat)
      modifies this`queue, this`queuedDeadlines
      ensures queuedDeadlines == AllAt(activeNodes, now) && queue == QueueOf(queuedDeadlines)
    {
      queue, queuedDeadlines := {}, map[];
      var todo := activeNodes;
      while todo != {}
        invariant todo <= activeNodes && queuedDeadlines == AllAt(activeNodes - todo, now)
        invariant queue == QueueOf(queuedDeadlines)
        decreases todo
      {
        var n :| n in todo;
        QueueOfInsert(queuedDeadlines, n, now);
        queue := queue + {Due(now, n)};
        queuedDeadlines := queuedDeadlines[n := now];
        todo := todo - {n};
      }
      assert activeNodes - todo == activeNodes;
    }

    /** Ids are nonzero, and the next one differs. */
    method TakeAttemptId() returns (id: nat)
      requires Valid()
      modifies this`nextAttemptId
      ensures Valid() && id == old(nextAttemptId) && nextAttemptId == NextNonzero(id)
      ensures 1 <= id <= U64_MAX && nextAttemptId != id
    {
      id := nextAttemptId;
      nextAttemptId := NextNonzero(nextAttemptId);
    }

    /** The queue's first entry, if it is due. */
    method FirstDue(now: nat) returns (r: Option<Due>)
      ensures r.Some? ==> IsFirst(queue, r.value) && r.value.at <= now
      ensures r.None? ==> forall x :: x in queue ==> x.at > now
    {
      if queue == {} {
        return None;
      }
      ghost var first := FirstExists(queue);
      var entry :| entry in queue && forall x :: x in queue && x != entry ==> Before(entry, x);
      assert forall x :: x in queue ==> x == entry || Before(entry, x);
      r := if entry.at <= now then Some(entry) else None;
    }

    /** Moves one entry from the queue to the in-flight table. */
    method Start(entry: Due) returns (task: Task)
      requires Valid() && generation.Some? && entry in queue && |inFlight| < WORKERS
      modifies this`queue, this`queuedDeadlines, this`inFlight, this`nextAttemptId
      ensures Valid() && |inFlight| == |old(inFlight)| + 1
      ensures queue == old(queue) - {entry} && queuedDeadlines == old(queuedDeadlines) - {entry.node}
      ensures entry.node !in old(inFlight)
      ensures inFlight == old(inFlight)[entry.node := InFlight(task.attempt, task.generation)]
      ensures TaskMatches(task, entry, generation.value, inFlight) && task.attempt >= 1
      ensures task.attempt == old(nextAttemptId) && nextAttemptId == NextNonzero(task.attempt)
    {
      var attempt := TakeAttemptId();
      var f := InFlight(attempt, generation.value);
      DispatchedIsConsistent(generation, activeNodes, queue, queuedDeadlines, inFlight, entry, f);
      queue := queue - {entry};
      queuedDeadlines := queuedDeadlines - {entry.node};
      inFlight := inFlight[entry.node := f];
      task := Task(attempt, generation.value, entry.node, entry.at);
    }

    /** Dispatches exactly the least due entries that fit, and moves them from the queue to the
        in-flight table; nothing else changes. The tasks have different attempt ids. */
    method TakeDue(now: nat) returns (tasks: seq<Task>, ghost taken: seq<Due>)
      requires Valid()
      modifies this`queue, this`queuedDeadlines, this`inFlight, this`nextAttemptId
      ensures Valid()
      ensures generation.Some? ==> Dispatch(old(queue), now, WORKERS - |old(inFlight)|, taken)
      ensures generation.None? ==> tasks == [] && taken == []
      ensures generation.Some? ==> Mirrors(tasks, taken, generation.value, old(inFlight), inFlight)
      ensures forall x :: x in queue <==> x in old(queue) && x !in taken
      ensures nextAttemptId == IdAfter(old(nextAttemptId), |tasks|) && Numbered(tasks, old(nextAttemptId))
      ensures forall i, j :: 0 <= i < j < |tasks| ==> tasks[i].attempt != tasks[j].attempt
    {
      tasks, taken := [], [];
      if generation.None? {
        return;
      }
      tasks, taken := TakeWhileDue(generation.value, now);
      NumberedDiffer(tasks, old(nextAttemptId));
    }

    method TakeWhileDue(g: nat, now: nat) returns (tasks: seq<Task>, ghost taken: seq<Due>)
      requires Valid() && generation == Some(g)
      modifies this`queue, this`queuedDeadlines, this`inFlight, this`nextAttemptId
      ensures Valid() && |tasks| <= WORKERS
      ensures Dispatch(old(queue), now, WORKERS - |old(inFlight)|, taken)
      ensures Mirrors(tasks, taken, g, old(inFlight), inFlight)
      ensures forall x :: x in queue <==> x in old(queue) && x !in taken
      ensures nextAttemptId == IdAfter(old(nextAttemptId), |tasks|) && Numbered(tasks, old(nextAttemptId))
    {
      tasks, taken := [], [];
      var available := WORKERS - |inFlight|;
      ghost var q0, f0, first := queue, inFlight, nextAttemptId;
      while |tasks| < available
        invariant Valid()
        invariant |tasks| == |taken| <= available && |inFlight| == |f0| + |taken|
        invariant Taking(q0, queue, now, taken) && Mirrors(tasks, taken, g, f0, inFlight)
        invariant nextAttemptId == IdAfter(first, |tasks|) && Numbered(tasks, first)
        decreases available - |tasks|
      {
        var due := FirstDue(now);
        if due.None? {
          break;
        }
        var entry := due.value;
        TakingNext(q0, queue, now, taken, entry);
        ghost var f1 := inFlight;
        var task := Start(entry);
        MirrorsNext(tasks, taken, g, f0, f1, entry, task, inFlight);
        NumberedNext(tasks, task, first, nextAttemptId);
        tasks := tasks + [task];
        taken := taken + [entry];
      }
      TakingDone(q0, queue, now, taken, available);
    }

    /** A completion of the current attempt reschedules the node; any other changes nothing. */
    method Complete(c: Completion) returns (status: CompletionStatus)
      requires Valid()
      modifies this`inFlight, this`samples, this`queue, this`queuedDeadlines
      ensures Valid()
      ensures status.LateGeneration? <==> generation != Some(c.task.generation)
      ensures status.Rescheduled? <==> generation == Some(c.task.generation) && c.task.node in old(inFlight) &&
                                       old(inFlight)[c.task.node] == InFlight(c.task.attempt, c.task.generation)
      ensures !status.Rescheduled? ==> inFlight == old(inFlight) && samples == old(samples) && queue == old(queue) &&
                                       queuedDeadlines == old(queuedDeadlines)
      ensures status.Rescheduled? ==>
                status.next == SaturatingAdd(c.at, INTERVAL_MS) &&
                inFlight == old(inFlight) - {c.task.node} &&
                samples == old(samples)[c.task.node := Sample(c.outcome, c.at, c.task.generation)] &&
                c.task.node !in old(queuedDeadlines) &&
                queuedDeadlines == old(queuedDeadlines)[c.task.node := status.next]
    {
      if generation != Some(c.task.generation) {
        return LateGeneration;
      }
      if c.task.node !in inFlight {
        return UnknownTask;
      }
      var f := inFlight[c.task.node];
      if f.attempt != c.task.attempt || f.generation != c.task.generation {
        return UnknownTask;
      }
      var next := SaturatingAdd(c.at, INTERVAL_MS);
      RescheduledIsConsistent(generation, activeNodes, queue, queuedDeadlines, inFlight, c.task.node, next);
      inFlight := inFlight - {c.task.node};
      samples := samples[c.task.node := Sample(c.outcome, c.at, c.task.generation)];
      queue := queue + {Due(next, c.task.node)};
      queuedDeadlines := queuedDeadlines[c.task.node := next];
      status := Rescheduled(next);
    }

    method Deactivate()
      requires Valid()
      modifies this
      ensures Valid() && generation.None? && activeNodes == {} && lastGeneration == old(lastGeneration)
    {
      generation := None;
      activeNodes, queue, queuedDeadlines, inFlight, samples := {}, {}, map[], map[], map[];
    }
  }

  /** While dispatching: what was taken is sorted, due, and before everything left. */
  ghost predicate Taking(q0: set<Due>, q: set<Due>, now: nat, taken: seq<Due>) {
    Sorted(taken) && (forall x :: x in q0 <==> x in q || x in taken) &&
    (forall d :: d in taken ==> d !in q && d.at <= now) &&
    forall d, x :: d in taken && x in q ==> Before(d, x)
  }

  lemma TakingNext(q0: set<Due>, q: set<Due>, now: nat, taken: seq<Due>, entry: Due)
    requires Taking(q0, q, now, taken) && IsFirst(q, entry) && entry.at <= now
    ensures Taking(q0, q - {entry}, now, taken + [entry])
  {
    var next := taken + [entry];
    forall i, j | 0 <= i < j < |next| ensures Before(next[i], next[j]) {
      assert next[i] == taken[i] && taken[i] in taken;
    }
  }

  lemma TakingDone(q0: set<Due>, q: set<Due>, now: nat, taken: seq<Due>, room: nat)
    requires Taking(q0, q, now, taken) && |taken| <= room
    requires |taken| == room || forall x :: x in q ==> x.at > now
    ensures Dispatch(q0, now, room, taken)
  {
  }
}
