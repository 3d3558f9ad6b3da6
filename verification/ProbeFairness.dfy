/** Fairness of the probe scheduler over whole runs of one probe generation: what the dispatch
    rule of ProbeScheduler.dfy implies for a node that is due. */
module ProbeFairness {
  import opened Common
  import opened ProbeScheduler

  /** The queue's deadlines change in two ways: a call dispatches some entries, and a
      completion puts a node back. */
  datatype Event = Take(now: nat, room: nat, taken: seq<Due>) | Complete(now: nat, node: nat)

  type Deadlines = map<nat, nat>

  ghost predicate Step(s: Deadlines, e: Event, t: Deadlines) {
    match e
    case Take(now, room, taken) =>
      Dispatch(QueueOf(s), now, room, taken) &&
      forall n :: (n in t <==> n in s && Due(s[n], n) !in taken) && (n in t ==> t[n] == s[n])
    case Complete(now, node) =>
      node !in s && t == s[node := SaturatingAdd(now, INTERVAL_MS)]
  }

  /** A call of `Scheduler.TakeDue` is such a step, by its contract. */
  lemma TakeDueIsStep(s: Deadlines, t: Deadlines, now: nat, room: nat, taken: seq<Due>)
    requires Dispatch(QueueOf(s), now, room, taken)
    requires forall x :: x in QueueOf(t) <==> x in QueueOf(s) && x !in taken
    ensures Step(s, Take(now, room, taken), t)
  {
    forall n ensures (n in t <==> n in s && Due(s[n], n) !in taken) && (n in t ==> t[n] == s[n]) {
      if n in t {
        assert Due(t[n], n) in QueueOf(t);
      }
      if n in s && Due(s[n], n) !in taken {
        assert Due(s[n], n) in QueueOf(s);
      }
    }
  }

  /** So is a call of `Scheduler.Complete` that reschedules a node. */
  lemma CompleteIsStep(s: Deadlines, t: Deadlines, now: nat, node: nat, next: nat)
    requires node !in s && next == SaturatingAdd(now, INTERVAL_MS) && t == s[node := next]
    ensures Step(s, Complete(now, node), t) && QueueOf(t) == QueueOf(s) + {Due(next, node)}
  {
    QueueOfInsert(s, node, next);
  }

  ghost predicate StepAt(states: seq<Deadlines>, events: seq<Event>, i: nat) {
    i < |events| && i + 1 < |states| ==> Step(states[i], events[i], states[i + 1])
  }

  ghost predicate IsRun(states: seq<Deadlines>, events: seq<Event>) {
    |states| == |events| + 1 && forall i: nat :: StepAt(states, events, i)
  }

  /** The nodes dispatched by the events from `i` up to `j`, in order. */
  ghost function Dispatched(events: seq<Event>, i: nat, j: nat): seq<nat>
    requires i <= j <= |events|
    decreases j
  {
    if i == j then []
    else Dispatched(events, i, j - 1) +
         match events[j - 1]
         case Take(_, _, taken) => Nodes(taken)
         case Complete(_, _) => []
  }

  ghost function Nodes(taken: seq<Due>): seq<nat> {
    seq(|taken|, k requires 0 <= k < |taken| => taken[k].node)
  }

  ghost predicate Distinct(s: seq<nat>) {
    forall k, l :: 0 <= k < l < |s| ==> s[k] != s[l]
  }

  /** From `i` to `j` the node waits in the queue with a deadline that has passed. */
  ghost predicate Waits(states: seq<Deadlines>, events: seq<Event>, i: nat, j: nat, node: nat, due: nat) {
    i <= j <= |events| && |states| == |events| + 1 && due <= U64_MAX &&
    (forall k :: i <= k <= j ==> node in states[k] && states[k][node] == due) &&
    (forall k :: i <= k < j ==> events[k].now >= due)
  }

  /** Only at the last instant, and only a smaller id, can a node come ahead of `node` again. */
  predicate Exempt(n: nat, node: nat, due: nat) {
    due == U64_MAX && n < node
  }

  /** Nobody in `gone`, exempt nodes apart, can be dispatched again ahead of the waiting node. */
  ghost predicate Behind(s: Deadlines, gone: seq<nat>, node: nat, due: nat) {
    forall k :: 0 <= k < |gone| && gone[k] in s && !Exempt(gone[k], node, due) ==>
      Before(Due(due, node), Due(s[gone[k]], gone[k]))
  }

  /** Nobody occurs twice, exempt nodes apart. */
  ghost predicate DistinctUnlessExempt(s: seq<nat>, node: nat, due: nat) {
    forall k, l :: 0 <= k < l < |s| && s[k] == s[l] ==> Exempt(s[k], node, due)
  }

  lemma TakenAreAhead(s: Deadlines, now: nat, room: nat, taken: seq<Due>, node: nat, due: nat)
    requires Dispatch(QueueOf(s), now, room, taken)
    requires node in s && s[node] == due <= now && Due(due, node) !in taken
    ensures forall k :: 0 <= k < |taken| ==>
              taken[k].node in s && s[taken[k].node] == taken[k].at && Before(taken[k], Due(due, node))
    ensures Distinct(Nodes(taken)) && |taken| == room
  {
    assert Due(due, node) in QueueOf(s);
    forall k | 0 <= k < |taken|
      ensures taken[k].node in s && s[taken[k].node] == taken[k].at && Before(taken[k], Due(due, node))
    {
      assert taken[k] in taken;
      assert taken[k] in QueueOf(s);
      assert Before(taken[k], Due(due, node));
    }
    forall k, l | 0 <= k < l < |taken| ensures Nodes(taken)[k] != Nodes(taken)[l] {
      assert Before(taken[k], taken[l]);
    }
  }

  lemma DistinctConcat(a: seq<nat>, b: seq<nat>, node: nat, due: nat)
    requires DistinctUnlessExempt(a, node, due) && Distinct(b)
    requires forall k, l :: 0 <= k < |a| && 0 <= l < |b| && a[k] == b[l] ==> Exempt(a[k], node, due)
    ensures DistinctUnlessExempt(a + b, node, due)
  {
  }

  /** Main result. After a queued node has become due, every other node is dispatched at most
      once before it; only at the last instant can nodes with a smaller id come again. */
  lemma {:induction false} OvertakenAtMostOnce(states: seq<Deadlines>, events: seq<Event>, i: nat, j: nat,
                                               node: nat, due: nat)
    requires IsRun(states, events) && Waits(states, events, i, j, node, due)
    ensures DistinctUnlessExempt(Dispatched(events, i, j), node, due) && node !in Dispatched(events, i, j)
    ensures Behind(states[j], Dispatched(events, i, j), node, due)
    decreases j
  {
    if i < j {
      OvertakenAtMostOnce(states, events, i, j - 1, node, due);
      assert StepAt(states, events, j - 1);
      var s, t := states[j - 1], states[j];
      var gone := Dispatched(events, i, j - 1);
      match events[j - 1]
      case Take(now, room, taken) =>
        TakenAreAhead(s, now, room, taken, node, due);
        DistinctConcat(gone, Nodes(taken), node, due);
        TakeKeepsBehind(s, t, gone, taken, node, due);
      case Complete(now, done) =>
        assert gone + [] == gone;
    }
  }

  lemma TakeKeepsBehind(s: Deadlines, t: Deadlines, gone: seq<nat>, taken: seq<Due>, node: nat, due: nat)
    requires Behind(s, gone, node, due)
    requires forall n :: (n in t <==> n in s && Due(s[n], n) !in taken) && (n in t ==> t[n] == s[n])
    requires forall k :: 0 <= k < |taken| ==> taken[k].node in s && s[taken[k].node] == taken[k].at
    ensures Behind(t, gone + Nodes(taken), node, due)
  {
    forall k | 0 <= k < |taken| ensures taken[k].node !in t {
      assert taken[k] in taken;
      assert taken[k] == Due(s[taken[k].node], taken[k].node);
    }
  }

  /** The waiting node is due before the last instant, or no active id is smaller. */
  ghost predicate CannotBePassedTwice(node: nat, due: nat, active: set<nat>) {
    due < U64_MAX || forall n :: n in active ==> node <= n
  }

  ghost predicate ActiveThroughout(states: seq<Deadlines>, i: nat, j: nat, active: set<nat>) {
    j < |states| && forall k :: i <= k <= j ==> states[k].Keys <= active
  }

  lemma OvertakersAreDistinct(states: seq<Deadlines>, events: seq<Event>, i: nat, j: nat, node: nat, due: nat,
                              active: set<nat>)
    requires IsRun(states, events) && Waits(states, events, i, j, node, due) && ActiveThroughout(states, i, j, active)
    requires CannotBePassedTwice(node, due, active)
    ensures Distinct(Dispatched(events, i, j))
  {
    OvertakenAtMostOnce(states, events, i, j, node, due);
    DispatchedAreActive(states, events, i, j, active);
  }

  // ---------------------------------------------------------------------------
  // No starvation
  // ---------------------------------------------------------------------------

  lemma {:induction false} DistinctWithin(s: seq<nat>, all: set<nat>)
    requires Distinct(s) && forall k :: 0 <= k < |s| ==> s[k] in all
    ensures |s| <= |all|
    decreases |s|
  {
    if s != [] {
      var last := s[|s| - 1];
      DistinctWithin(s[..|s| - 1], all - {last});
    }
  }

  /** Calls that had room for at least one task. */
  ghost function Opportunities(events: seq<Event>, i: nat, j: nat): nat
    requires i <= j <= |events|
    decreases j
  {
    if i == j then 0
    else Opportunities(events, i, j - 1) + if events[j - 1].Take? && events[j - 1].room >= 1 then 1 else 0
  }

  lemma {:induction false} EveryOpportunityIsUsed(states: seq<Deadlines>, events: seq<Event>, i: nat, j: nat,
                                                  node: nat, due: nat)
    requires IsRun(states, events) && Waits(states, events, i, j, node, due)
    ensures Opportunities(events, i, j) <= |Dispatched(events, i, j)|
    decreases j
  {
    if i < j {
      EveryOpportunityIsUsed(states, events, i, j - 1, node, due);
      assert StepAt(states, events, j - 1);
      match events[j - 1]
      case Take(now, room, taken) => TakenAreAhead(states[j - 1], now, room, taken, node, due);
      case Complete(now, done) =>
    }
  }

  lemma {:induction false} DispatchedAreActive(states: seq<Deadlines>, events: seq<Event>, i: nat, j: nat,
                                               active: set<nat>)
    requires IsRun(states, events) && i <= j <= |events| && ActiveThroughout(states, i, j, active)
    ensures forall k :: 0 <= k < |Dispatched(events, i, j)| ==> Dispatched(events, i, j)[k] in active
    decreases j
  {
    if i < j {
      DispatchedAreActive(states, events, i, j - 1, active);
      assert StepAt(states, events, j - 1);
      match events[j - 1]
      case Take(now, room, taken) =>
        forall k | 0 <= k < |taken| ensures taken[k].node in active {
          assert taken[k] in taken;
        }
      case Complete(now, done) =>
    }
  }

  /** Main result. A due node waits for fewer calls with a free worker than there are active
      nodes. */
  lemma DueNodeIsNotStarved(states: seq<Deadlines>, events: seq<Event>, i: nat, j: nat, node: nat, due: nat,
                            active: set<nat>)
    requires IsRun(states, events) && Waits(states, events, i, j, node, due) && ActiveThroughout(states, i, j, active)
    requires CannotBePassedTwice(node, due, active)
    ensures Opportunities(events, i, j) < |active|
  {
    OvertakenAtMostOnce(states, events, i, j, node, due);
    OvertakersAreDistinct(states, events, i, j, node, due, active);
    EveryOpportunityIsUsed(states, events, i, j, node, due);
    DispatchedAreActive(states, events, i, j, active);
    var d := Dispatched(events, i, j);
    assert node in states[j];
    forall k | 0 <= k < |d| ensures d[k] in active - {node} {
      assert d[k] in d;
    }
    DistinctWithin(d, active - {node});
  }

  // ---------------------------------------------------------------------------
  // Runs of one generation
  // ---------------------------------------------------------------------------

  /** The nodes that are active and not queued are in flight; a call has room for the other
      workers, and only what is in flight completes. */
  ghost predicate SchedulerStep(s: Deadlines, e: Event, t: Deadlines, active: set<nat>) {
    Step(s, e, t) && (e.Take? ==> e.room + |active - s.Keys| == WORKERS) && (e.Complete? ==> e.node in active)
  }

  /** The calls of a consistent scheduler are such steps: its room is what its workers leave. */
  lemma CallsAreSchedulerSteps(s: Deadlines, e: Event, t: Deadlines, active: set<nat>, running: set<nat>)
    requires Placed(active, s.Keys, running) && Step(s, e, t)
    requires e.Take? ==> e.room + |running| == WORKERS
    requires e.Complete? ==> e.node in running
    ensures SchedulerStep(s, e, t, active)
  {
    assert active - s.Keys == running;
  }

  ghost predicate SchedulerStepAt(states: seq<Deadlines>, events: seq<Event>, active: set<nat>, k: nat) {
    k < |events| && k + 1 < |states| ==> SchedulerStep(states[k], events[k], states[k + 1], active)
  }

  /** Times never go back. */
  ghost predicate Forward(events: seq<Event>, from: nat) {
    forall k :: 0 <= k < |events| ==>
      from <= events[k].now <= U64_MAX && (k > 0 ==> events[k - 1].now <= events[k].now)
  }

  /** From a reset at `from`, with these active nodes. */
  ghost predicate IsSchedulerRun(states: seq<Deadlines>, events: seq<Event>, active: set<nat>, from: nat) {
    |states| == |events| + 1 && states[0] == AllAt(active, from) && Forward(events, from) &&
    forall k: nat :: SchedulerStepAt(states, events, active, k)
  }

  lemma SchedulerRunIsRun(states: seq<Deadlines>, events: seq<Event>, active: set<nat>, from: nat)
    requires IsSchedulerRun(states, events, active, from)
    ensures IsRun(states, events)
  {
    forall k: nat ensures StepAt(states, events, k) {
      assert SchedulerStepAt(states, events, active, k);
    }
  }

  lemma {:induction false} QueuedAreActive(states: seq<Deadlines>, events: seq<Event>, active: set<nat>, from: nat,
                                           k: nat)
    requires IsSchedulerRun(states, events, active, from) && k < |states|
    ensures states[k].Keys <= active
    decreases k
  {
    if k > 0 {
      QueuedAreActive(states, events, active, from, k - 1);
      assert SchedulerStepAt(states, events, active, k - 1);
    }
  }

  lemma ForwardGrows(events: seq<Event>, from: nat, e: Event)
    requires Forward(events, from) && from <= e.now <= U64_MAX
    requires events != [] ==> events[|events| - 1].now <= e.now
    ensures Forward(events + [e], from)
  {
  }

  lemma StepSurvives(states: seq<Deadlines>, events: seq<Event>, active: set<nat>, e: Event, t: Deadlines, k: nat)
    requires |states| == |events| + 1 && k < |events| && SchedulerStepAt(states, events, active, k)
    ensures SchedulerStepAt(states + [t], events + [e], active, k)
  {
  }

  lemma StepAdded(states: seq<Deadlines>, events: seq<Event>, active: set<nat>, e: Event, t: Deadlines, n: nat)
    requires |states| == |events| + 1 && n == |events| && SchedulerStep(states[n], e, t, active)
    ensures SchedulerStepAt(states + [t], events + [e], active, n)
  {
    var states', events' := states + [t], events + [e];
    var a, b, c := states'[n], events'[n], states'[n + 1];
    assert a == states[n] && b == e && c == t;
    assert SchedulerStep(a, b, c, active);
  }

  lemma SchedulerRunGrows(states: seq<Deadlines>, events: seq<Event>, active: set<nat>, from: nat,
                          e: Event, t: Deadlines)
    requires IsSchedulerRun(states, events, active, from) && SchedulerStep(states[|states| - 1], e, t, active)
    requires from <= e.now <= U64_MAX && (events != [] ==> events[|events| - 1].now <= e.now)
    ensures IsSchedulerRun(states + [t], events + [e], active, from)
  {
    ForwardGrows(events, from, e);
    var states', events' := states + [t], events + [e];
    forall k: nat ensures SchedulerStepAt(states', events', active, k) {
      if k < |events| {
        assert SchedulerStepAt(states, events, active, k);
        StepSurvives(states, events, active, e, t, k);
      } else if k == |events| {
        StepAdded(states, events, active, e, t, k);
      }
    }
  }

  // ---------------------------------------------------------------------------
  // Up to as many nodes as workers
  // ---------------------------------------------------------------------------

  /** A call that leaves a due node waiting has used every worker on others. */
  lemma PassedMeansMany(s: Deadlines, active: set<nat>, now: nat, room: nat, taken: seq<Due>, node: nat, due: nat)
    requires Dispatch(QueueOf(s), now, room, taken) && s.Keys <= active && room + |active - s.Keys| == WORKERS
    requires node in s && s[node] == due <= now && Due(due, node) !in taken
    ensures |active| > WORKERS
  {
    TakenAreAhead(s, now, room, taken, node, due);
    forall k | 0 <= k < |Nodes(taken)| ensures Nodes(taken)[k] in s.Keys - {node} {
      assert Before(taken[k], Due(due, node));
    }
    DistinctWithin(Nodes(taken), s.Keys - {node});
    assert |s.Keys - {node}| == |s.Keys| - 1;
    assert active == s.Keys + (active - s.Keys);
  }

  /** With no more nodes than workers, no due node is ever passed, at any instant. */
  lemma {:induction false} NobodyPasses(states: seq<Deadlines>, events: seq<Event>, active: set<nat>, from: nat,
                                        i: nat, j: nat, node: nat, due: nat)
    requires IsSchedulerRun(states, events, active, from) && Waits(states, events, i, j, node, due)
    requires |active| <= WORKERS
    ensures Dispatched(events, i, j) == [] && Opportunities(events, i, j) == 0
    decreases j
  {
    if i < j {
      NobodyPasses(states, events, active, from, i, j - 1, node, due);
      assert SchedulerStepAt(states, events, active, j - 1);
      QueuedAreActive(states, events, active, from, j - 1);
      match events[j - 1]
      case Take(now, room, taken) =>
        PassedMeansMany(states[j - 1], active, now, room, taken, node, due);
        assert false;
      case Complete(now, done) =>
    }
  }
}
