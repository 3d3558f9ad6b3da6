/** `CancellationToken` of `src/cancellation.rs`, interleaved at its atomic accesses. Interrupts
    are numbered by the registration call that brings them. */
module CancellationProtocol {
  import opened Common

  type Interrupt = nat

  /** Where a registration call, or the registration it returned, stands. */
  datatype Phase =
    | Locked                              // holds the mutex, flag not yet read
    | Checked                             // holds the mutex, flag read as false
    | Refused                             // flag read as true, mutex released, interrupt to be run
    | Returned                            // has run its own interrupt
    | Registered(id: nat)
    | Dropped(id: nat, early: bool)       // `early`: before the map was taken

  /** The one `cancel` call that found the flag unset. */
  datatype Canceller = Absent | Swapped | Running(left: map<nat, Interrupt>)

  datatype State = State(cancelled: bool, registrations: nat, interrupts: map<nat, Interrupt>, lock: Option<Interrupt>,
                         canceller: Canceller, phase: map<Interrupt, Phase>, runs: multiset<Interrupt>)

  const INITIAL := State(false, 0, map[], None, Absent, map[], multiset{})

  /** `fetch_add(1).wrapping_add(1).max(1)` after this many calls; only the
      addition that wraps to zero is raised to one. */
  function NextId(registrations: nat): (id: nat)
    ensures registrations < U64_MAX ==> id == registrations + 1
  {
    var count := registrations % (U64_MAX + 1);
    if count == U64_MAX then 1 else count + 1
  }

  datatype Action =
    | Lock(f: Interrupt)
    | Check(f: Interrupt)
    | Insert(f: Interrupt)
    | RunOwn(f: Interrupt)
    | Drop(f: Interrupt)
    | Swap
    | Take
    | RunNext(id: nat)

  predicate Enabled(s: State, a: Action) {
    match a
    case Lock(f) => s.lock.None? && f !in s.phase
    case Check(f) => f in s.phase && s.phase[f].Locked?
    case Insert(f) => f in s.phase && s.phase[f].Checked?
    case RunOwn(f) => f in s.phase && s.phase[f].Refused?
    case Drop(f) => s.lock.None? && f in s.phase && s.phase[f].Registered?
    case Swap => true
    case Take => s.canceller.Swapped? && s.lock.None?
    case RunNext(id) => s.canceller.Running? && id in s.canceller.left && forall j :: j in s.canceller.left ==> id <= j
  }

  function Next(s: State, a: Action): State
    requires Enabled(s, a)
  {
    match a
    case Lock(f) => s.(lock := Some(f), phase := s.phase[f := Locked])
    case Check(f) =>
      if s.cancelled then s.(lock := None, phase := s.phase[f := Refused]) else s.(phase := s.phase[f := Checked])
    case Insert(f) =>
      var id := NextId(s.registrations);
      s.(lock := None, registrations := s.registrations + 1, interrupts := s.interrupts[id := f],
         phase := s.phase[f := Registered(id)])
    case RunOwn(f) => s.(phase := s.phase[f := Returned], runs := s.runs + multiset{f})
    case Drop(f) =>
      var id := s.phase[f].id;
      s.(interrupts := s.interrupts - {id}, phase := s.phase[f := Dropped(id, !s.canceller.Running?)])
    case Swap => s.(cancelled := true, canceller := if s.cancelled then s.canceller else Swapped)
    case Take => s.(interrupts := map[], canceller := Running(s.interrupts))
    case RunNext(id) =>
      s.(canceller := Running(s.canceller.left - {id}), runs := s.runs + multiset{s.canceller.left[id]})
  }

  // ---------------------------------------------------------------------------
  // What every step keeps
  // ---------------------------------------------------------------------------

  predicate HoldsLock(p: Phase) {
    p.Locked? || p.Checked?
  }

  predicate HasId(p: Phase) {
    p.Registered? || p.Dropped?
  }

  /** The lock has one holder; the flag is set by the canceller; once the map is taken nobody is
      about to insert. */
  ghost predicate Ordered(s: State) {
    && (forall f :: f in s.phase && HoldsLock(s.phase[f]) ==> s.lock == Some(f))
    && (s.lock.Some? ==> s.lock.value in s.phase && HoldsLock(s.phase[s.lock.value]))
    && (s.cancelled <==> !s.canceller.Absent?)
    && (forall f :: f in s.phase && (s.phase[f].Refused? || s.phase[f].Returned?) ==> s.cancelled)
    && (s.canceller.Running? ==>
          s.interrupts == map[] && forall f :: f in s.phase ==> !s.phase[f].Checked?)
  }

  /** Identifiers are in range and distinct. */
  ghost predicate Distinct(s: State) {
    && (forall f :: f in s.phase && HasId(s.phase[f]) ==> 1 <= s.phase[f].id <= s.registrations)
    && (forall f, g :: f in s.phase && g in s.phase && HasId(s.phase[f]) && HasId(s.phase[g]) && f != g ==>
                         s.phase[f].id != s.phase[g].id)
  }

  /** What is still to be run by the canceller, now or once it takes the map. */
  function Waiting(s: State): map<nat, Interrupt> {
    if s.canceller.Running? then s.canceller.left else s.interrupts
  }

  /** Whether interrupt `f`, in phase `p`, is still waiting and how often it has run. */
  ghost predicate Counted(s: State, f: Interrupt, p: Phase) {
    match p
    case Returned => s.runs[f] == 1
    case Registered(id) => Pending(s, f, id)
    case Dropped(id, early) => if early then s.runs[f] == 0 && id !in Waiting(s) else Pending(s, f, id)
    case _ => s.runs[f] == 0
  }

  ghost predicate Pending(s: State, f: Interrupt, id: nat) {
    if id in Waiting(s) then Waiting(s)[id] == f && s.runs[f] == 0
    else s.canceller.Running? && s.runs[f] == 1
  }

  ghost predicate Accounted(s: State) {
    && (forall f :: f in s.phase ==> Counted(s, f, s.phase[f]))
    && (forall f :: f !in s.phase ==> s.runs[f] == 0)
    && (forall id :: id in Waiting(s) ==>
          Waiting(s)[id] in s.phase && HasId(s.phase[Waiting(s)[id]]) && s.phase[Waiting(s)[id]].id == id)
  }

  ghost predicate Good(s: State) {
    Ordered(s) && Distinct(s) && Accounted(s)
  }

  lemma OrderedStep(s: State, a: Action)
    requires Ordered(s) && Enabled(s, a)
    ensures Ordered(Next(s, a))
  {
  }

  /** A changed phase keeps its identifier, or brings a fresh one. */
  lemma DistinctUpdate(s: State, t: State, f: Interrupt, p: Phase)
    requires Distinct(s) && t.phase == s.phase[f := p] && s.registrations <= t.registrations
    requires HasId(p) ==> (f in s.phase && HasId(s.phase[f]) && p.id == s.phase[f].id) ||
                          s.registrations < p.id <= t.registrations
    ensures Distinct(t)
  {
  }

  lemma DistinctStep(s: State, a: Action)
    requires Good(s) && Enabled(s, a) && Next(s, a).registrations <= U64_MAX
    ensures Distinct(Next(s, a))
  {
    match a
    case Lock(f) => DistinctUpdate(s, Next(s, a), f, Locked);
    case Check(f) => DistinctUpdate(s, Next(s, a), f, if s.cancelled then Refused else Checked);
    case Insert(f) => DistinctUpdate(s, Next(s, a), f, Registered(NextId(s.registrations)));
    case RunOwn(f) => DistinctUpdate(s, Next(s, a), f, Returned);
    case Drop(f) => DistinctUpdate(s, Next(s, a), f, Dropped(s.phase[f].id, !s.canceller.Running?));
    case _ =>
  }

  /** The steps that leave the map and the counts alone. */
  lemma AccountedQuiet(s: State, t: State, f: Interrupt, p: Phase)
    requires Good(s) && t.runs == s.runs && Waiting(t) == Waiting(s) && t.canceller.Running? == s.canceller.Running?
    requires t.phase == s.phase[f := p] && Counted(s, f, p) && (f in s.phase ==> !HasId(s.phase[f]))
    ensures Accounted(t)
  {
    forall g | g in t.phase ensures Counted(t, g, t.phase[g]) {
      assert g == f || (g in s.phase && Counted(s, g, s.phase[g]));
    }
  }

  lemma AccountedInsert(s: State, f: Interrupt, id: nat)
    requires Good(s) && Enabled(s, Insert(f)) && id == s.registrations + 1 == NextId(s.registrations)
    ensures Accounted(Next(s, Insert(f)))
  {
    var t := Next(s, Insert(f));
    forall g | g in t.phase ensures Counted(t, g, t.phase[g]) {
      assert Counted(s, f, s.phase[f]);
      assert g == f || (g in s.phase && Counted(s, g, s.phase[g]));
    }
    assert Waiting(t) == Waiting(s)[id := f];
  }

  lemma AccountedRunOwn(s: State, f: Interrupt)
    requires Good(s) && Enabled(s, RunOwn(f))
    ensures Accounted(Next(s, RunOwn(f)))
  {
    var t := Next(s, RunOwn(f));
    forall g | g in t.phase ensures Counted(t, g, t.phase[g]) {
      assert Counted(s, g, s.phase[g]);
    }
    assert Waiting(t) == Waiting(s);
  }

  lemma AccountedEarlyDrop(s: State, f: Interrupt)
    requires Good(s) && Enabled(s, Drop(f)) && !s.canceller.Running?
    ensures Accounted(Next(s, Drop(f)))
  {
    var t, id := Next(s, Drop(f)), s.phase[f].id;
    assert Waiting(t) == Waiting(s) - {id};
    forall g | g in t.phase ensures Counted(t, g, t.phase[g]) {
      assert Counted(s, g, s.phase[g]);
    }
  }

  lemma AccountedLateDrop(s: State, f: Interrupt)
    requires Good(s) && Enabled(s, Drop(f)) && s.canceller.Running?
    ensures Accounted(Next(s, Drop(f)))
  {
    var t := Next(s, Drop(f));
    assert Waiting(t) == Waiting(s);
    forall g | g in t.phase ensures Counted(t, g, t.phase[g]) {
      assert Counted(s, g, s.phase[g]);
    }
  }

  lemma AccountedSwap(s: State)
    requires Good(s)
    ensures Accounted(Next(s, Swap))
  {
    var t := Next(s, Swap);
    assert Waiting(t) == Waiting(s);
    forall g | g in t.phase ensures Counted(t, g, t.phase[g]) {
      assert Counted(s, g, s.phase[g]);
    }
  }

  lemma AccountedTake(s: State)
    requires Good(s) && Enabled(s, Take)
    ensures Accounted(Next(s, Take))
  {
    var t := Next(s, Take);
    assert Waiting(t) == Waiting(s);
    forall g | g in t.phase ensures Counted(t, g, t.phase[g]) {
      assert Counted(s, g, s.phase[g]);
    }
  }

  lemma AccountedRunNext(s: State, id: nat)
    requires Good(s) && Enabled(s, RunNext(id))
    ensures Accounted(Next(s, RunNext(id)))
  {
    var t, f := Next(s, RunNext(id)), Waiting(s)[id];
    assert f in s.phase && s.phase[f].id == id && Counted(s, f, s.phase[f]);
    assert Waiting(t) == Waiting(s) - {id};
    forall g | g in t.phase ensures Counted(t, g, t.phase[g]) {
      assert Counted(s, g, s.phase[g]);
    }
  }

  lemma AccountedStep(s: State, a: Action)
    requires Good(s) && Enabled(s, a) && Next(s, a).registrations <= U64_MAX
    ensures Accounted(Next(s, a))
  {
    match a
    case Lock(f) => AccountedQuiet(s, Next(s, a), f, Locked);
    case Check(f) =>
      assert Counted(s, f, s.phase[f]);
      AccountedQuiet(s, Next(s, a), f, if s.cancelled then Refused else Checked);
    case Insert(f) => AccountedInsert(s, f, NextId(s.registrations));
    case RunOwn(f) => AccountedRunOwn(s, f);
    case Drop(f) => if s.canceller.Running? { AccountedLateDrop(s, f); } else { AccountedEarlyDrop(s, f); }
    case Swap => AccountedSwap(s);
    case Take => AccountedTake(s);
    case RunNext(id) => AccountedRunNext(s, id);
  }

  lemma GoodStep(s: State, a: Action)
    requires Good(s) && Enabled(s, a) && Next(s, a).registrations <= U64_MAX
    ensures Good(Next(s, a))
  {
    OrderedStep(s, a);
    DistinctStep(s, a);
    AccountedStep(s, a);
  }

  // ---------------------------------------------------------------------------
  // Runs
  // ---------------------------------------------------------------------------

  datatype Entry = Entry(action: Action, state: State)

  ghost predicate StepAt(h: seq<Entry>, i: nat) {
    i < |h| ==>
      var before := if i == 0 then INITIAL else h[i - 1].state;
      Enabled(before, h[i].action) && h[i].state == Next(before, h[i].action)
  }

  ghost predicate IsRun(h: seq<Entry>) {
    forall i: nat :: StepAt(h, i)
  }

  function Last(h: seq<Entry>): State {
    if h == [] then INITIAL else h[|h| - 1].state
  }

  lemma RunGrows(h: seq<Entry>, a: Action)
    requires IsRun(h) && Enabled(Last(h), a)
    ensures IsRun(h + [Entry(a, Next(Last(h), a))])
  {
    var h' := h + [Entry(a, Next(Last(h), a))];
    forall i: nat ensures StepAt(h', i) {
      assert StepAt(h, i);
    }
  }

  lemma RunShrinks(h: seq<Entry>)
    requires IsRun(h) && h != []
    ensures IsRun(h[..|h| - 1]) && StepAt(h, |h| - 1)
  {
    var before := h[..|h| - 1];
    forall i: nat ensures StepAt(before, i) {
      assert StepAt(h, i);
    }
  }

  /** Every reachable state is good, as long as the identifiers have not wrapped. */
  lemma {:induction false} GoodOverRuns(h: seq<Entry>)
    requires IsRun(h) && Last(h).registrations <= U64_MAX
    ensures Good(Last(h))
    decreases |h|
  {
    if h != [] {
      RunShrinks(h);
      var before := h[..|h| - 1];
      assert Last(before).registrations <= Last(h).registrations;
      GoodOverRuns(before);
      GoodStep(Last(before), h[|h| - 1].action);
    }
  }

  /** No registration call is under way, and neither is the cancelling call. */
  ghost predicate Quiet(s: State) {
    s.lock.None? && !s.canceller.Swapped? && (s.canceller.Running? ==> s.canceller.left == map[]) &&
    forall f :: f in s.phase ==> !s.phase[f].Refused?
  }

  /** Main result. In every interleaving no interrupt runs twice, none runs unless the token is
      cancelled, and when all calls have finished exactly the interrupts whose registration was
      not dropped before the map was taken have run, once each. */
  lemma ExactlyOnce(h: seq<Entry>, f: Interrupt)
    requires IsRun(h) && Last(h).registrations <= U64_MAX
    ensures var s := Last(h);
            && s.runs[f] <= 1
            && (s.runs[f] > 0 ==> s.cancelled && f in s.phase)
            && (Quiet(s) && f in s.phase ==>
                  s.runs[f] == if s.cancelled && !(s.phase[f].Dropped? && s.phase[f].early) then 1 else 0)
  {
    GoodOverRuns(h);
    var s := Last(h);
    if f in s.phase {
      assert Counted(s, f, s.phase[f]);
    }
  }
}
