/** When the overtaking bound of ProbeFairness.dfy holds, exactly: the runs the scheduler can make
    from a reset, and what becomes of them at the largest instant. */
module ProbeLastInstant {
  import opened Common
  import opened ProbeScheduler
  import opened ProbeFairness

  lemma {:induction false} DispatchExists(q: set<Due>, now: nat, room: nat) returns (taken: seq<Due>)
    ensures Dispatch(q, now, room, taken)
    decreases room
  {
    taken := [];
    if q != {} && room > 0 {
      var first := FirstExists(q);
      if first.at <= now {
        var rest := DispatchExists(q - {first}, now, room - 1);
        taken := [first] + rest;
        FirstThenRest(q, now, room, first, rest);
      }
    }
  }

  lemma FirstThenRest(q: set<Due>, now: nat, room: nat, first: Due, rest: seq<Due>)
    requires room > 0 && IsFirst(q, first) && first.at <= now && Dispatch(q - {first}, now, room - 1, rest)
    ensures Dispatch(q, now, room, [first] + rest)
  {
    var taken := [first] + rest;
    forall i, j | 0 <= i < j < |taken| ensures Before(taken[i], taken[j]) {
      assert taken[j] == rest[j - 1] && rest[j - 1] in rest;
      assert i > 0 ==> taken[i] == rest[i - 1];
    }
    forall x | x in q && x.at <= now && x !in taken
      ensures |taken| == room && forall d :: d in taken ==> Before(d, x)
    {
      assert taken[0] == first;
      assert x != first;
      assert x !in rest by {
        assert forall d :: d in rest ==> d in taken;
      }
      forall d | d in taken ensures Before(d, x) {
        assert d == first || d in rest;
      }
    }
  }

  /** What is left in the queue after a call. */
  ghost function After(s: Deadlines, taken: seq<Due>): Deadlines {
    map n | n in s && Due(s[n], n) !in taken :: s[n]
  }

  /** Every queued node is due at 0 or at the last instant; of `kept` none is at the last. */
  ghost predicate Staged(s: Deadlines, active: set<nat>, kept: set<nat>) {
    s.Keys <= active && |active - s.Keys| <= WORKERS &&
    forall n :: n in s ==> s[n] == 0 || (s[n] == U64_MAX && n !in kept)
  }

  ghost function AtZero(s: Deadlines): set<nat> {
    set n | n in s && s[n] == 0
  }

  /** Exactly the nodes in `kept` are in flight, and all others queued for the last instant. */
  ghost predicate Packed(s: Deadlines, active: set<nat>, kept: set<nat>) {
    s == AllAt(active - kept, U64_MAX)
  }

  lemma OneFewer(active: set<nat>, queued: set<nat>, kept: set<nat>, n: nat)
    requires n in active - queued - kept
    ensures |active - (queued + {n})| == |active - queued| - 1
    ensures |active - (queued + {n}) - kept| == |active - queued - kept| - 1
  {
    assert active - (queued + {n}) == active - queued - {n};
    assert active - (queued + {n}) - kept == active - queued - kept - {n};
  }

  lemma ZeroUnchanged(s: Deadlines, n: nat)
    requires n !in s
    ensures AtZero(s[n := U64_MAX]) == AtZero(s)
  {
  }

  lemma CompleteStaged(s: Deadlines, active: set<nat>, kept: set<nat>, n: nat, t: Deadlines)
    requires Staged(s, active, kept) && n in active - s.Keys - kept && t == s[n := U64_MAX]
    ensures Staged(t, active, kept) && t.Keys == s.Keys + {n}
  {
    assert t.Keys == s.Keys + {n};
    OneFewer(active, s.Keys, kept, n);
  }

  lemma {:induction false} FewNodes(taken: seq<Due>)
    ensures |(set d | d in taken :: d.node)| <= |taken|
    decreases |taken|
  {
    if taken == [] {
      assert (set d | d in taken :: d.node) == {};
    } else {
      var front, last := taken[..|taken| - 1], taken[|taken| - 1];
      FewNodes(front);
      assert forall d :: d in taken <==> d in front || d == last;
      assert (set d | d in taken :: d.node) == (set d | d in front :: d.node) + {last.node};
    }
  }

  lemma TakeInFlight(s: Deadlines, active: set<nat>, room: nat, taken: seq<Due>)
    requires |taken| <= room && room + |active - s.Keys| == WORKERS
    ensures |active - After(s, taken).Keys| <= WORKERS
  {
    var t := After(s, taken);
    var nodes := set d | d in taken :: d.node;
    FewNodes(taken);
    forall n | n in active - t.Keys ensures n in (active - s.Keys) + nodes {
      assert n in s ==> Due(s[n], n) in taken;
    }
    MoreElements(active - t.Keys, (active - s.Keys) + nodes);
  }

  /** A call takes what is due at 0 first. */
  lemma TakesZero(s: Deadlines, room: nat, taken: seq<Due>)
    requires Dispatch(QueueOf(s), U64_MAX, room, taken) && room >= 1 && AtZero(s) != {}
    ensures |AtZero(After(s, taken))| < |AtZero(s)|
  {
    var z :| z in AtZero(s);
    assert Due(0, z) in QueueOf(s);
    assert Due(0, z) in taken || (taken[0] in taken && Before(taken[0], Due(0, z)));
    var gone := if Due(0, z) in taken then z else taken[0].node;
    assert gone in AtZero(s) && Due(0, gone) in taken;
    MoreElements(AtZero(After(s, taken)), AtZero(s) - {gone});
  }

  lemma AllPacked(s: Deadlines, active: set<nat>, kept: set<nat>)
    requires Staged(s, active, kept) && kept <= active && active - s.Keys <= kept && AtZero(s) == {}
    ensures Packed(s, active, kept)
  {
    forall n | n in active ensures n in s <==> n !in kept {
      assert n in s && s[n] == 0 ==> n in AtZero(s);
    }
    assert forall n :: n in s ==> s[n] == U64_MAX by {
      forall n | n in s ensures s[n] == U64_MAX {
        assert s[n] == 0 ==> n in AtZero(s);
      }
    }
  }

  /** A step towards the packed state: whoever is not to be kept completes, and otherwise what is
      due at 0 is taken. */
  lemma StageStep(s: Deadlines, active: set<nat>, kept: set<nat>) returns (e: Event, t: Deadlines)
    requires Staged(s, active, kept) && kept <= active && |kept| < WORKERS && !Packed(s, active, kept)
    ensures e.now == U64_MAX && SchedulerStep(s, e, t, active) && Staged(t, active, kept)
    ensures |AtZero(t)| < |AtZero(s)| ||
            (|AtZero(t)| == |AtZero(s)| && |active - t.Keys - kept| < |active - s.Keys - kept|)
  {
    if active - s.Keys - kept != {} {
      var n :| n in active - s.Keys - kept;
      e, t := Complete(U64_MAX, n), s[n := U64_MAX];
      CompleteStaged(s, active, kept, n, t);
      ZeroUnchanged(s, n);
      OneFewer(active, s.Keys, kept, n);
    } else {
      if AtZero(s) == {} {
        AllPacked(s, active, kept);
      }
      e, t := TakeZero(s, active, kept);
    }
  }

  /** From a reset at 0, exactly the nodes in `kept` can come to be in flight, with all others
      queued for the last instant. */
  lemma {:induction false} ReachPacked(states: seq<Deadlines>, events: seq<Event>, active: set<nat>, kept: set<nat>,
                                       s: Deadlines)
    returns (states': seq<Deadlines>, events': seq<Event>)
    requires IsSchedulerRun(states, events, active, 0) && kept <= active && |kept| < WORKERS
    requires s == states[|states| - 1] && Staged(s, active, kept)
    ensures IsSchedulerRun(states', events', active, 0) && Packed(states'[|states'| - 1], active, kept)
    decreases |AtZero(s)|, |active - s.Keys - kept|
  {
    states', events' := states, events;
    if !Packed(s, active, kept) {
      var e, t := StageStep(s, active, kept);
      SchedulerRunGrows(states, events, active, 0, e, t);
      states', events' := ReachPacked(states + [t], events + [e], active, kept, t);
    }
  }

  lemma TakeZero(s: Deadlines, active: set<nat>, kept: set<nat>) returns (e: Event, t: Deadlines)
    requires Staged(s, active, kept) && |kept| < WORKERS && active - s.Keys <= kept && AtZero(s) != {}
    ensures e.now == U64_MAX && SchedulerStep(s, e, t, active)
    ensures Staged(t, active, kept) && |AtZero(t)| < |AtZero(s)|
  {
    MoreElements(active - s.Keys, kept);
    var room := WORKERS - |active - s.Keys|;
    var taken := DispatchExists(QueueOf(s), U64_MAX, room);
    TakeInFlight(s, active, room, taken);
    TakesZero(s, room, taken);
    e, t := Take(U64_MAX, room, taken), After(s, taken);
  }

  lemma {:induction false} SubsetOfSize(s: set<nat>, n: nat) returns (t: set<nat>)
    requires n <= |s|
    ensures t <= s && |t| == n
    decreases n
  {
    t := {};
    if n > 0 {
      var x :| x in s;
      var rest := SubsetOfSize(s - {x}, n - 1);
      t := rest + {x};
    }
  }

  lemma {:induction false} LeastNode(s: set<nat>) returns (m: nat)
    requires s != {}
    ensures m in s && forall n :: n in s ==> m <= n
    decreases |s|
  {
    var x :| x in s;
    m := x;
    if s - {x} != {} {
      var r := LeastNode(s - {x});
      m := if r < x then r else x;
    }
    forall n | n in s ensures m <= n {
      assert n == x || n in s - {x};
    }
  }

  /** With one worker free and everybody queued at the last instant, the least id is taken. */
  lemma PackedTakesLeast(s: Deadlines, active: set<nat>, kept: set<nat>, least: nat)
    requires Packed(s, active, kept) && kept <= active && |kept| == WORKERS - 1
    requires least in active - kept && forall n :: n in active ==> least <= n
    ensures SchedulerStep(s, Take(U64_MAX, 1, [Due(U64_MAX, least)]), s - {least}, active)
    ensures SchedulerStep(s - {least}, Complete(U64_MAX, least), s, active)
  {
    assert s.Keys == active - kept;
    assert active - s.Keys == kept;
    assert Due(U64_MAX, least) in QueueOf(s);
    assert (s - {least})[least := U64_MAX] == s;
  }

  lemma ResetRun(active: set<nat>, kept: set<nat>)
    ensures IsSchedulerRun([AllAt(active, 0)], [], active, 0) && Staged(AllAt(active, 0), active, kept)
  {
    assert AllAt(active, 0).Keys == active;
    assert active - active == {};
    var states: seq<Deadlines>, events: seq<Event> := [AllAt(active, 0)], [];
    forall k: nat ensures SchedulerStepAt(states, events, active, k) {
    }
  }

  lemma KeptNodes(node: nat, active: set<nat>, least: nat) returns (kept: set<nat>)
    requires node in active && least in active && |active| > WORKERS
    ensures kept <= active - {least, node} && |kept| == WORKERS - 1
  {
    assert active == (active - {least, node}) + {least, node};
    assert |{least, node}| <= 2;
    kept := SubsetOfSize(active - {least, node}, WORKERS - 1);
  }

  lemma GrowsByThree(states: seq<Deadlines>, events: seq<Event>, active: set<nat>, take: Event, done: Event,
                     s: Deadlines, t: Deadlines)
    requires IsSchedulerRun(states, events, active, 0) && s == states[|states| - 1]
    requires take.now == done.now == U64_MAX
    requires SchedulerStep(s, take, t, active) && SchedulerStep(t, done, s, active)
    ensures IsSchedulerRun(states + [t] + [s] + [t], events + [take] + [done] + [take], active, 0)
  {
    SchedulerRunGrows(states, events, active, 0, take, t);
    SchedulerRunGrows(states + [t], events + [take], active, 0, done, s);
    SchedulerRunGrows(states + [t] + [s], events + [take] + [done], active, 0, take, t);
  }

  lemma WaitsForThree(states: seq<Deadlines>, events: seq<Event>, take: Event, done: Event,
                      s: Deadlines, t: Deadlines, node: nat)
    requires |states| == |events| + 1 && s == states[|states| - 1] && take.now == done.now == U64_MAX
    requires node in s && s[node] == U64_MAX && node in t && t[node] == U64_MAX
    ensures Waits(states + [t] + [s] + [t], events + [take] + [done] + [take], |events|, |events| + 3, node, U64_MAX)
  {
    var i := |events|;
    var all, steps := states + [t] + [s] + [t], events + [take] + [done] + [take];
    assert all[i] == s && all[i + 1] == t && all[i + 2] == s && all[i + 3] == t;
    assert steps[i] == take && steps[i + 1] == done && steps[i + 2] == take;
    forall k | i <= k <= i + 3 ensures node in all[k] && all[k][node] == U64_MAX {
      assert k == i || k == i + 1 || k == i + 2 || k == i + 3;
    }
    forall k | i <= k < i + 3 ensures steps[k].now >= U64_MAX {
      assert k == i || k == i + 1 || k == i + 2;
    }
  }

  /** From the packed state the least id is dispatched, completes and is dispatched again. */
  lemma PassAgain(before: seq<Deadlines>, steps: seq<Event>, active: set<nat>, kept: set<nat>, least: nat, node: nat)
    returns (states: seq<Deadlines>, events: seq<Event>)
    requires IsSchedulerRun(before, steps, active, 0) && Packed(before[|before| - 1], active, kept)
    requires kept <= active - {least, node} && |kept| == WORKERS - 1
    requires node in active && least in active && least != node && forall n :: n in active ==> least <= n
    ensures IsSchedulerRun(states, events, active, 0) && Waits(states, events, |steps|, |steps| + 3, node, U64_MAX)
    ensures Dispatched(events, |steps|, |steps| + 3) == [least, least]
  {
    var s := before[|before| - 1];
    var t := s - {least};
    var take, done := Take(U64_MAX, 1, [Due(U64_MAX, least)]), Complete(U64_MAX, least);
    PackedTakesLeast(s, active, kept, least);
    GrowsByThree(before, steps, active, take, done, s, t);
    WaitsForThree(before, steps, take, done, s, t, node);
    PassedTwice(steps, take, done, least);
    states, events := before + [t] + [s] + [t], steps + [take] + [done] + [take];
  }

  /** A run from a reset in which a node due at the last instant is passed twice by the least
      id: more nodes than workers, one worker free. */
  lemma LastInstantCanOvertakeTwice(node: nat, active: set<nat>)
    returns (states: seq<Deadlines>, events: seq<Event>, i: nat, least: nat)
    requires node in active && |active| > WORKERS && exists n :: n in active && n < node
    ensures IsSchedulerRun(states, events, active, 0) && Waits(states, events, i, i + 3, node, U64_MAX)
    ensures least < node && Dispatched(events, i, i + 3) == [least, least]
  {
    least := LeastNode(active);
    var kept := KeptNodes(node, active, least);
    ResetRun(active, kept);
    var before, steps := ReachPacked([AllAt(active, 0)], [], active, kept, AllAt(active, 0));
    i := |steps|;
    states, events := PassAgain(before, steps, active, kept, least, node);
  }

  lemma PassedTwice(events: seq<Event>, take: Event, done: Event, least: nat)
    requires take.Take? && take.taken == [Due(U64_MAX, least)] && done.Complete?
    ensures var all := events + [take] + [done] + [take];
            Dispatched(all, |events|, |events| + 3) == [least, least]
  {
    var i := |events|;
    var all := events + [take] + [done] + [take];
    assert all[i] == take && all[i + 1] == done && all[i + 2] == take;
    assert Nodes(take.taken) == [least];
    assert Dispatched(all, i, i) == [];
    assert Dispatched(all, i, i + 1) == [] + Nodes(take.taken);
    assert Dispatched(all, i, i + 2) == Dispatched(all, i, i + 1) + [];
    assert Dispatched(all, i, i + 3) == Dispatched(all, i, i + 2) + Nodes(take.taken);
  }

  /** In every run of the scheduler over these active nodes, while the node waits nobody is
      dispatched twice. */
  ghost predicate NeverPassedTwice(node: nat, due: nat, active: set<nat>) {
    forall states: seq<Deadlines>, events: seq<Event>, from: nat, i: nat, j: nat |
      IsSchedulerRun(states, events, active, from) && Waits(states, events, i, j, node, due) ::
      Distinct(Dispatched(events, i, j))
  }

  /** Main result. The bound holds over all runs of the scheduler exactly when the node is due
      before the last instant, or there are no more nodes than workers, or no active id is
      smaller. */
  lemma OvertakingBoundIsExact(node: nat, due: nat, active: set<nat>)
    requires node in active && due <= U64_MAX
    ensures NeverPassedTwice(node, due, active) <==>
            due < U64_MAX || |active| <= WORKERS || forall n :: n in active ==> node <= n
  {
    if due < U64_MAX || |active| <= WORKERS || forall n :: n in active ==> node <= n {
      forall states: seq<Deadlines>, events: seq<Event>, from: nat, i: nat, j: nat |
        IsSchedulerRun(states, events, active, from) && Waits(states, events, i, j, node, due)
        ensures Distinct(Dispatched(events, i, j))
      {
        if |active| <= WORKERS {
          NobodyPasses(states, events, active, from, i, j, node, due);
        } else {
          SchedulerRunIsRun(states, events, active, from);
          forall k | i <= k <= j ensures states[k].Keys <= active {
            QueuedAreActive(states, events, active, from, k);
          }
          OvertakersAreDistinct(states, events, i, j, node, due, active);
        }
      }
    } else {
      var states, events, i, least := LastInstantCanOvertakeTwice(node, active);
      assert Dispatched(events, i, i + 3)[0] == Dispatched(events, i, i + 3)[1];
    }
  }
}
