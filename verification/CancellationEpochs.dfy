/** Owner-scoped cancellation across three lock domains: the service's cancellation state
    (`src/service.rs`), the process controller's epoch (`src/process_controller.rs`) and the
    Mihomo adapter's active operations (`src/mihomo.rs`). Each domain is updated under its own
    lock and the calls between them are made after the lock is released, so cancellations and
    resets of different owner generations interleave freely. */
module CancellationEpochs {
  import opened Common

  // ---------------------------------------------------------------------------
  // The controller's epoch and the adapter, one critical section at a time
  // ---------------------------------------------------------------------------

  datatype Epoch = Epoch(latest: nat, owner: Option<nat>, cancelled: bool)

  function ResetEpoch(e: Epoch, g: nat): Epoch {
    if g <= e.latest then e else Epoch(g, Some(g), false)
  }

  function CancelEpoch(e: Epoch, g: nat): Epoch {
    if e.owner == Some(g) then e.(cancelled := true) else e
  }

  /** `sockets` are registered operations, `shut` the ones that were cancelled. */
  datatype Operations = Operations(owner: Option<nat>, cancelled: bool, sockets: set<nat>, shut: set<nat>)

  function ResetOperations(o: Operations, g: nat): Operations {
    if o.owner.None? || g > o.owner.value then o.(owner := Some(g), cancelled := false) else o
  }

  function CancelOperations(o: Operations, g: nat): Operations {
    if o.owner == Some(g) then o.(cancelled := true, shut := o.shut + o.sockets, sockets := {}) else o
  }

  function RegisterOperation(o: Operations, socket: nat): Operations {
    if o.cancelled then o.(shut := o.shut + {socket}) else o.(sockets := o.sockets + {socket})
  }

  /** `ApplyCancellationEpoch` with the flag it guards; the result says whether the adapter is
      told next. */
  class ApplyCancellation {
    var latest: nat
    var owner: Option<nat>
    var cancelled: bool

    function Value(): Epoch
      reads this
    {
      Epoch(latest, owner, cancelled)
    }

    constructor ()
      ensures Value() == Epoch(0, None, false)
    {
      latest, owner, cancelled := 0, None, false;
    }

    method Reset(g: nat) returns (accepted: bool)
      modifies this
      ensures Value() == ResetEpoch(old(Value()), g)
      ensures accepted <==> g > old(latest)
    {
      if g <= latest {
        return false;
      }
      latest, owner, cancelled := g, Some(g), false;
      accepted := true;
    }

    method Cancel(g: nat) returns (accepted: bool)
      modifies this
      ensures Value() == CancelEpoch(old(Value()), g)
      ensures accepted <==> old(owner) == Some(g)
    {
      accepted := owner == Some(g);
      if accepted {
        cancelled := true;
      }
    }
  }

  class ActiveOperations {
    var owner: Option<nat>
    var cancelled: bool
    var sockets: set<nat>
    ghost var shut: set<nat>

    ghost function Value(): Operations
      reads this
    {
      Operations(owner, cancelled, sockets, shut)
    }

    constructor ()
      ensures Value() == Operations(None, false, {}, {})
    {
      owner, cancelled, sockets, shut := None, false, {}, {};
    }

    method Register(socket: nat) returns (ok: bool)
      modifies this
      ensures Value() == RegisterOperation(old(Value()), socket)
      ensures ok <==> !old(cancelled)
    {
      ok := !cancelled;
      if ok {
        sockets := sockets + {socket};
      } else {
        shut := shut + {socket};
      }
    }

    /** `cancel_matching` for a given owner generation. */
    method CancelFor(g: nat)
      modifies this
      ensures Value() == CancelOperations(old(Value()), g)
    {
      if owner != Some(g) {
        return;
      }
      cancelled := true;
      var operations := sockets;
      sockets := {};
      shut := shut + operations;
    }

    method ResetFor(g: nat)
      modifies this
      ensures Value() == ResetOperations(old(Value()), g)
    {
      if owner.None? || g > owner.value {
        owner, cancelled := Some(g), false;
      }
    }
  }

  // ---------------------------------------------------------------------------
  // The whole system
  // ---------------------------------------------------------------------------

  /** An owner session being opened, under the state lock, with how far its reset got. */
  datatype Opening = Idle | AtController(g: nat) | AtAdapter(g: nat)

  /** A cancellation call in progress, with where it goes next. */
  datatype Call = ToController(g: nat) | ToAdapter(g: nat)

  /** `owner` and `requested` are the service's; `newest` is the newest generation given to an
      owner, `known` those whose session was returned to a caller, and `returned` those for
      which a cancellation has returned. */
  datatype System = System(
    newest: nat, owner: Option<nat>, requested: bool,
    epoch: Epoch, adapter: Operations,
    opening: Opening, known: set<nat>, calls: multiset<Call>, returned: set<nat>)

  datatype Event =
    | Open(g: nat)
    | ControllerReset
    | AdapterReset
    | Close
    | Cancel(g: nat)
    | ControllerCancel(g: nat)
    | AdapterCancel(g: nat)
    | Register(socket: nat)
    // repeated deliveries for an older generation
    | StrayReset(g: nat)
    | StrayCancel(g: nat)

  const START := System(0, None, false, Epoch(0, None, false), Operations(None, false, {}, {}),
                        Idle, {}, multiset{}, {})

  ghost predicate Step(s: System, e: Event, t: System) {
    match e
    // the service installs the new owner, then tells the controller
    case Open(g) =>
      s.opening.Idle? && s.owner.None? && g > s.newest &&
      t == s.(newest := g, owner := Some(g), requested := false, opening := AtController(g))
    case ControllerReset =>
      s.opening.AtController? &&
      t == s.(epoch := ResetEpoch(s.epoch, s.opening.g), opening := AtAdapter(s.opening.g))
    // the adapter is told, and only then does the caller learn its proof
    case AdapterReset =>
      s.opening.AtAdapter? &&
      t == s.(adapter := ResetOperations(s.adapter, s.opening.g), opening := Idle, known := s.known + {s.opening.g})
    case Close =>
      s.opening.Idle? && s.owner.Some? && t == s.(owner := None, requested := true)
    // a caller that knows the proof of generation g cancels
    case Cancel(g) =>
      g in s.known && s.owner == Some(g) && t == s.(requested := true, calls := s.calls + multiset{ToController(g)})
    case ControllerCancel(g) =>
      ToController(g) in s.calls &&
      var calls := s.calls - multiset{ToController(g)};
      if s.epoch.owner == Some(g)
      then t == s.(epoch := CancelEpoch(s.epoch, g), calls := calls + multiset{ToAdapter(g)})
      else t == s.(calls := calls, returned := s.returned + {g})
    case AdapterCancel(g) =>
      ToAdapter(g) in s.calls &&
      t == s.(adapter := CancelOperations(s.adapter, g), calls := s.calls - multiset{ToAdapter(g)},
              returned := s.returned + {g})
    case Register(socket) => t == s.(adapter := RegisterOperation(s.adapter, socket))
    // an older reset or cancellation delivered again, to both
    case StrayReset(g) =>
      g < s.epoch.latest && s.adapter.owner.Some? && g < s.adapter.owner.value &&
      t == s.(epoch := ResetEpoch(s.epoch, g), adapter := ResetOperations(s.adapter, g))
    case StrayCancel(g) =>
      g < s.epoch.latest && s.adapter.owner.Some? && g < s.adapter.owner.value &&
      t == s.(epoch := CancelEpoch(s.epoch, g), adapter := CancelOperations(s.adapter, g))
  }

  ghost predicate StepAt(run: seq<System>, events: seq<Event>, i: nat) {
    i < |events| && i + 1 < |run| ==> Step(run[i], events[i], run[i + 1])
  }

  /** `run[i]` is the state before `events[i]`. */
  ghost predicate IsRun(run: seq<System>, events: seq<Event>) {
    |run| == |events| + 1 && run[0] == START && forall i: nat :: StepAt(run, events, i)
  }

  /** The three domains move through generations in order, and agree between openings. */
  ghost predicate Ordered(s: System) {
    && s.epoch.latest <= s.newest && (s.epoch.owner.Some? ==> s.epoch.owner.value == s.epoch.latest)
    && (s.adapter.owner.Some? ==> s.adapter.owner.value <= s.epoch.latest)
    && (s.owner.Some? ==> s.owner.value == s.newest)
    && (match s.opening
        case AtController(g) => g == s.newest > s.epoch.latest && s.owner == Some(g)
        case AtAdapter(g) =>
          0 < g == s.newest && s.epoch.owner == Some(g) && s.owner == Some(g) &&
          (s.adapter.owner.Some? ==> g > s.adapter.owner.value)
        case Idle => s.newest > 0 ==> s.epoch.owner == Some(s.newest) && s.adapter.owner == Some(s.newest))
  }

  /** Only sessions that all three domains have reached are known, cancelled or being cancelled. */
  ghost predicate Reached(s: System, g: nat) {
    0 < g && s.adapter.owner.Some? && g <= s.adapter.owner.value
  }

  ghost predicate Tracked(s: System) {
    && (forall g :: g in s.known ==> Reached(s, g))
    && (forall c :: c in s.calls ==> c.g in s.known)
    && (forall g :: g in s.returned ==> g in s.known)
  }

  /** How far the cancellations of generation `g` got. */
  ghost predicate Effective(s: System, g: nat) {
    && (ToController(g) in s.calls || ToAdapter(g) in s.calls || g in s.returned ==>
          s.owner == Some(g) ==> s.requested)
    && (ToAdapter(g) in s.calls || g in s.returned ==> s.epoch.owner == Some(g) ==> s.epoch.cancelled)
    && (g in s.returned ==> s.epoch.owner == s.adapter.owner == Some(g) ==> s.adapter.cancelled)
  }

  ghost predicate Good(s: System) {
    Ordered(s) && Tracked(s) && (forall g :: Effective(s, g)) && (s.adapter.cancelled ==> s.adapter.sockets == {})
  }

  lemma OrderedStep(s: System, e: Event, t: System)
    requires Ordered(s) && Step(s, e, t)
    ensures Ordered(t)
  {
  }

  lemma ReachedStays(s: System, e: Event, t: System, g: nat)
    requires Ordered(s) && Step(s, e, t)
    ensures Reached(s, g) ==> Reached(t, g)
    ensures e.AdapterReset? && g == s.opening.g ==> Reached(t, g)
  {
  }

  lemma TrackedStep(s: System, e: Event, t: System)
    requires Ordered(s) && Tracked(s) && Step(s, e, t)
    ensures Tracked(t)
  {
    forall g | g in t.known ensures Reached(t, g) {
      ReachedStays(s, e, t, g);
    }
    forall c | c in t.calls ensures c.g in t.known {
      assert c in s.calls || (e.Cancel? && c.g == e.g) || (e.ControllerCancel? && c.g == e.g);
    }
  }

  predicate Cancels(e: Event) {
    e.Cancel? || e.ControllerCancel? || e.AdapterCancel?
  }

  lemma EffectiveCancel(s: System, e: Event, t: System, g: nat)
    requires Ordered(s) && Tracked(s) && Effective(s, g) && Step(s, e, t) && Cancels(e)
    ensures Effective(t, g)
  {
    assert ToController(g) in s.calls || ToAdapter(g) in s.calls || g in s.returned ==> Reached(s, g);
  }

  lemma EffectiveOther(s: System, e: Event, t: System, g: nat)
    requires Ordered(s) && Tracked(s) && Effective(s, g) && Step(s, e, t) && !Cancels(e)
    ensures Effective(t, g)
  {
    assert ToController(g) in s.calls || ToAdapter(g) in s.calls || g in s.returned ==> Reached(s, g);
  }

  lemma EffectiveStep(s: System, e: Event, t: System, g: nat)
    requires Ordered(s) && Tracked(s) && Effective(s, g) && Step(s, e, t)
    ensures Effective(t, g)
  {
    if Cancels(e) {
      EffectiveCancel(s, e, t, g);
    } else {
      EffectiveOther(s, e, t, g);
    }
  }

  lemma GoodStep(s: System, e: Event, t: System)
    requires Good(s) && Step(s, e, t)
    ensures Good(t)
  {
    OrderedStep(s, e, t);
    TrackedStep(s, e, t);
    forall g ensures Effective(t, g) {
      EffectiveStep(s, e, t, g);
    }
  }

  lemma {:induction false} GoodOverRuns(run: seq<System>, events: seq<Event>, n: nat)
    requires IsRun(run, events) && n < |run|
    ensures Good(run[n])
    decreases n
  {
    if n > 0 {
      GoodOverRuns(run, events, n - 1);
      assert StepAt(run, events, n - 1);
      GoodStep(run[n - 1], events[n - 1], run[n]);
    }
  }

  /** Main result. In every interleaving, once a cancellation for an owner generation has
      returned, and while that generation is the service's owner, the service refuses to
      commit, the controller's flag is up, the adapter is cancelled and no operation is
      left running. */
  lemma ReturnedCancellationReachesEveryDomain(run: seq<System>, events: seq<Event>, n: nat, g: nat)
    requires IsRun(run, events) && n < |run| && g in run[n].returned && run[n].owner == Some(g)
    ensures run[n].requested && run[n].epoch.cancelled && run[n].adapter.cancelled && run[n].adapter.sockets == {}
  {
    GoodOverRuns(run, events, n);
    assert Effective(run[n], g) && Reached(run[n], g);
  }

  /** The operations registered so far. */
  ghost function Registered(events: seq<Event>): set<nat> {
    if events == [] then {}
    else
      var e := events[|events| - 1];
      Registered(events[..|events| - 1]) + if e.Register? then {e.socket} else {}
  }

  lemma StepRegisters(s: System, e: Event, t: System)
    requires Step(s, e, t)
    ensures t.adapter.sockets + t.adapter.shut ==
            s.adapter.sockets + s.adapter.shut + if e.Register? then {e.socket} else {}
  {
  }

  lemma RegisteredMore(events: seq<Event>, n: nat)
    requires n < |events|
    ensures Registered(events[..n + 1]) ==
            Registered(events[..n]) + if events[n].Register? then {events[n].socket} else {}
  {
    assert events[..n + 1][..n] == events[..n];
  }

  lemma {:induction false} RegisteredAreOpenOrShut(run: seq<System>, events: seq<Event>, n: nat)
    requires IsRun(run, events) && n < |run|
    ensures run[n].adapter.sockets + run[n].adapter.shut == Registered(events[..n])
    decreases n
  {
    if n > 0 {
      RegisteredAreOpenOrShut(run, events, n - 1);
      assert StepAt(run, events, n - 1);
      StepRegisters(run[n - 1], events[n - 1], run[n]);
      RegisteredMore(events, n - 1);
    }
  }

  /** Main result. When a cancellation for the current owner has returned, every operation ever
      registered has been shut; and an operation is shut only by a cancellation for the adapter's
      owner, or because it registers after one. */
  lemma CancellationShutsOperations(run: seq<System>, events: seq<Event>, n: nat)
    requires IsRun(run, events) && n < |run|
    ensures run[n].owner.Some? && run[n].owner.value in run[n].returned ==>
              run[n].adapter.shut == Registered(events[..n])
    ensures n > 0 && run[n].adapter.shut != run[n - 1].adapter.shut ==>
              match events[n - 1]
              case AdapterCancel(g) => run[n - 1].adapter.owner == Some(g)
              case Register(_) => run[n - 1].adapter.cancelled
              case _ => false
  {
    if run[n].owner.Some? && run[n].owner.value in run[n].returned {
      ReturnedCancellationReachesEveryDomain(run, events, n, run[n].owner.value);
      RegisteredAreOpenOrShut(run, events, n);
    }
    if n > 0 {
      assert StepAt(run, events, n - 1);
    }
  }

  // ---------------------------------------------------------------------------
  // Older generations have no effect
  // ---------------------------------------------------------------------------

  lemma GenerationsStep(s: System, e: Event, t: System)
    requires Step(s, e, t)
    ensures s.epoch.latest <= t.epoch.latest
    ensures s.adapter.owner.Some? ==> t.adapter.owner.Some? && s.adapter.owner.value <= t.adapter.owner.value
  {
  }

  lemma {:induction false} GenerationsMoveForward(run: seq<System>, events: seq<Event>, i: nat, j: nat)
    requires IsRun(run, events) && i <= j < |run|
    ensures run[i].epoch.latest <= run[j].epoch.latest
    ensures run[i].adapter.owner.Some? ==>
              run[j].adapter.owner.Some? && run[i].adapter.owner.value <= run[j].adapter.owner.value
    decreases j
  {
    if i < j {
      GenerationsMoveForward(run, events, i, j - 1);
      assert StepAt(run, events, j - 1);
      GenerationsStep(run[j - 1], events[j - 1], run[j]);
    }
  }

  function EventGeneration(s: System, e: Event): Option<nat> {
    match e
    case ControllerReset => if s.opening.Idle? then None else Some(s.opening.g)
    case AdapterReset => if s.opening.Idle? then None else Some(s.opening.g)
    case ControllerCancel(g) => Some(g)
    case AdapterCancel(g) => Some(g)
    case StrayReset(g) => Some(g)
    case StrayCancel(g) => Some(g)
    case _ => None
  }

  /** Main result. Once the controller and the adapter have moved to generation `newer`, no
      cancellation or reset of an older generation changes either of them, however late it
      arrives. */
  lemma OlderGenerationsAreInert(run: seq<System>, events: seq<Event>, i: nat, j: nat, newer: nat)
    requires IsRun(run, events) && i <= j < |events|
    requires newer <= run[i].epoch.latest && run[i].adapter.owner.Some? && newer <= run[i].adapter.owner.value
    requires EventGeneration(run[j], events[j]).Some? && EventGeneration(run[j], events[j]).value < newer
    ensures run[j + 1].epoch == run[j].epoch && run[j + 1].adapter == run[j].adapter
  {
    GenerationsMoveForward(run, events, i, j);
    GoodOverRuns(run, events, j);
    assert StepAt(run, events, j);
  }

  // ---------------------------------------------------------------------------
  // Why the session must be returned last
  // ---------------------------------------------------------------------------

  /** Were a caller able to cancel between the controller's reset and the adapter's, the
      adapter would miss it: its owner is still the older one, and its own reset then clears
      the flag. */
  lemma EarlyCancellationIsLostAtTheAdapter(e: Epoch, o: Operations, g: nat)
    requires g > e.latest && (o.owner.Some? ==> o.owner.value < g)
    ensures var e1 := ResetEpoch(e, g);
            var e2 := CancelEpoch(e1, g);
            var o2 := ResetOperations(CancelOperations(o, g), g);
            e2.cancelled && !o2.cancelled && o2.sockets == o.sockets
  {
  }
}
