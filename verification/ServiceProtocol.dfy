/** The privileged Core service of `src/service.rs` as a transition system: every change to
    its state, made under the state lock, is one labelled step, and the world may move
    between any two of them. The class in Service.dfy is proved to make only these steps;
    here are the facts that hold over every sequence of them. */
module ServiceProtocol {
  import opened Common

  // ---------------------------------------------------------------------------
  // Time
  // ---------------------------------------------------------------------------

  /** Durations in nanoseconds, up to `Duration::MAX`. */
  const SECOND: nat := 1_000_000_000
  const DURATION_MAX: nat := U64_MAX * 1_000_000_000 + 999_999_999
  const LIVENESS_INTERVAL: nat := 5 * SECOND
  const INITIAL_BACKOFF: nat := SECOND
  const MAX_BACKOFF: nat := 30 * SECOND

  function DeadlineAfter(now: nat, delay: nat): nat {
    Min(now + delay, DURATION_MAX)
  }

  const U32_MAX: nat := 0xFFFF_FFFF

  function Pow2(k: nat): nat {
    if k == 0 then 1 else 2 * Pow2(k - 1)
  }

  function CheckedPow2(k: nat): Option<nat> {
    if k < 32 then Some(Pow2(k)) else None
  }

  /** `restart_backoff_after`, with its u32 conversions and checked arithmetic. */
  function BackoffAfter(failures: nat): nat {
    var exponent := Min(failures, U32_MAX);
    var multiplier := match CheckedPow2(exponent) case Some(m) => m case None => U32_MAX;
    var product := INITIAL_BACKOFF * multiplier;
    Min(if product <= DURATION_MAX then product else MAX_BACKOFF, MAX_BACKOFF)
  }

  // ---------------------------------------------------------------------------
  // State
  // ---------------------------------------------------------------------------

  datatype ProcessId = ProcessId(pid: nat, start: string, instance: nat)

  datatype CoreRecord = CoreRecord(process: ProcessId, runtime: nat)

  datatype Core = NoCore | Active(record: CoreRecord) | CleanupPending(record: CoreRecord)

  datatype Bundle = Bundle(generation: nat, manifest: string)

  /** A proof's session name carries the owner generation it was issued for. */
  datatype Proof = Proof(generation: nat, secret: string, token: string)

  datatype Supervisor = Supervisor(uid: nat, pid: nat, start: string, token: string)

  datatype Owner = Owner(supervisor: Supervisor, generation: nat, proof: Proof)

  /** What the system knows a supervisor process by: a pid is used again, a pair is not. */
  datatype SupervisorProcess = SupervisorProcess(pid: nat, start: string)

  function ProcessOf(s: Supervisor): SupervisorProcess {
    SupervisorProcess(s.pid, s.start)
  }

  /** Why an owner is cleared. */
  datatype Clearing = ClosedBy(proof: Proof) | SupervisorGone | ServiceShutdown

  datatype Restart = Restart(degraded: bool, failures: nat, diagnostic: bool, dueAt: Option<nat>, backoff: Option<nat>)

  const NO_RESTART := Restart(false, 0, false, None, None)

  function InitialRestart(now: nat): Restart {
    Restart(false, 0, false, Some(DeadlineAfter(now, INITIAL_BACKOFF)), Some(INITIAL_BACKOFF))
  }

  /** After an ordinary failure, with the failure already counted. */
  function AfterFailure(r: Restart, limit: nat, now: nat): Restart {
    if r.failures >= limit then Restart(true, r.failures, true, None, None)
    else r.(dueAt := Some(DeadlineAfter(now, BackoffAfter(r.failures))), backoff := Some(BackoffAfter(r.failures)))
  }

  /** `openedGeneration` is that of the latest owner; `live` are the Core processes that exist,
      `spawning` one that was started and not yet committed; `attempting` says a restart attempt
      is under way; `cancelled` are the proofs whose cancellation has returned; `commits` and
      `applySpawns` count committed applies and Cores started by applies; `gone` are the
      supervisor processes that have exited. */
  datatype View = View(
    limit: nat,
    ownerGeneration: nat, openedGeneration: nat, coreGeneration: nat,
    owner: Option<Owner>, core: Core, bundle: Option<Bundle>,
    restart: Restart, livenessAt: Option<nat>,
    cancelOwner: Option<Proof>, cancelRequested: bool,
    live: set<ProcessId>, spawning: Option<CoreRecord>, attempting: bool, cancelled: set<Proof>,
    commits: nat, applySpawns: nat, gone: set<SupervisorProcess>)

  /** The supervisor's process still runs, so inspecting its pid gives the start it had. */
  predicate Alive(v: View, s: Supervisor) {
    ProcessOf(s) !in v.gone
  }

  /** What must hold for an owner to be cleared for this reason. */
  predicate MayClear(v: View, cause: Clearing) {
    match cause
    case ClosedBy(proof) => v.owner.Some? && v.owner.value.proof == proof
    case SupervisorGone => v.owner.Some? && !Alive(v, v.owner.value.supervisor)
    case ServiceShutdown => true
  }

  datatype Effect =
    | Started
    | ProcessesExited
    | SupervisorsExited
    | CancelRequested(proof: Proof)
    | GenerationsReserved
    | OwnerOpened(owner: Owner)
    | OwnerCleared(cause: Clearing)
    | Demoted
    | CoreGone
    | Spawned(record: CoreRecord, byRestart: bool)
    | SpawnPended
    | ApplyCommitted(proof: Proof, bundle: Bundle)
    | ExitObserved(now: nat)
    | CoreStopped
    | AttemptStarted(now: nat)
    | AttemptFailed(now: nat)
    | AttemptAborted
    | RestartCommitted(now: nat)
    | LivenessArmed(at: nat)

  ghost predicate Initial(v: View) {
    1 <= v.limit <= U64_MAX && v.openedGeneration <= v.ownerGeneration && v.owner.None? && v.core.NoCore? &&
    v.bundle.None? && v.restart == NO_RESTART && v.livenessAt.None? &&
    v.cancelOwner.None? && !v.cancelRequested && v.live == {} && v.spawning.None? && !v.attempting && v.cancelled == {}
  }

  function CoreProcess(core: Core): set<ProcessId> {
    if core.NoCore? then {} else {core.record.process}
  }

  /** One step. Nothing is assumed here about which processes are live beyond what the step
      itself checked. */
  ghost predicate Next(v: View, e: Effect, w: View) {
    match e
    case Started => false
    case ProcessesExited => w == v.(live := w.live) && w.live <= v.live
    case SupervisorsExited => w == v.(gone := w.gone) && v.gone <= w.gone
    case CancelRequested(proof) =>
      v.cancelOwner == Some(proof) && w == v.(cancelRequested := true, cancelled := v.cancelled + {proof})
    case GenerationsReserved =>
      w == v.(ownerGeneration := w.ownerGeneration, coreGeneration := w.coreGeneration) &&
      v.ownerGeneration <= w.ownerGeneration && v.coreGeneration <= w.coreGeneration
    case OwnerOpened(owner) =>
      v.owner.None? && v.spawning.None? && !v.attempting && owner.generation == v.ownerGeneration &&
      owner.proof.generation == owner.generation && owner.generation > v.openedGeneration &&
      w == v.(owner := Some(owner), openedGeneration := owner.generation, cancelOwner := Some(owner.proof),
              cancelRequested := false, restart := NO_RESTART, livenessAt := None)
    case OwnerCleared(cause) =>
      MayClear(v, cause) && CoreProcess(v.core) !! v.live && v.spawning.None? && !v.attempting &&
      w == v.(owner := None, core := NoCore, bundle := None, restart := NO_RESTART, livenessAt := None,
              cancelOwner := None, cancelRequested := if v.owner.Some? then true else v.cancelRequested)
    case Demoted =>
      v.core.Active? && w == v.(core := CleanupPending(v.core.record))
    case CoreGone =>
      v.core.CleanupPending? && v.core.record.process !in v.live && w == v.(core := NoCore)
    case Spawned(record, byRestart) =>
      byRestart == v.attempting && v.core.NoCore? && v.spawning.None? && v.owner.Some? &&
      record.process.instance == v.coreGeneration &&
      w == v.(live := v.live + {record.process}, spawning := Some(record),
              applySpawns := v.applySpawns + if byRestart then 0 else 1)
    case SpawnPended =>
      v.spawning.Some? && w == v.(core := CleanupPending(v.spawning.value), spawning := None)
    case ApplyCommitted(proof, bundle) =>
      v.spawning.Some? && v.core.NoCore? && v.spawning.value.runtime == bundle.generation &&
      v.owner.Some? && v.owner.value.proof == proof && v.cancelOwner == Some(proof) && !v.cancelRequested &&
      !v.attempting &&
      w == v.(core := Active(v.spawning.value), spawning := None, bundle := Some(bundle),
              restart := NO_RESTART, livenessAt := None, commits := v.commits + 1)
    case ExitObserved(now) =>
      v.core.Active? && v.core.record.process !in v.live && w == v.(core := NoCore, restart := InitialRestart(now))
    case CoreStopped =>
      !v.core.NoCore? && v.core.record.process !in v.live && v.spawning.None? && !v.attempting &&
      w == v.(core := NoCore, bundle := None, restart := NO_RESTART, livenessAt := None)
    case AttemptStarted(now) =>
      v.restart.dueAt.Some? && v.restart.dueAt.value <= now && v.core.NoCore? && v.bundle.Some? && !v.attempting &&
      w == v.(restart := v.restart.(failures := SaturatingAdd(v.restart.failures, 1)), attempting := true)
    case AttemptFailed(now) =>
      v.attempting && v.spawning.None? && v.core.NoCore? &&
      w == v.(restart := AfterFailure(v.restart, v.limit, now), attempting := false)
    case AttemptAborted =>
      v.attempting && v.spawning.None? && w == v.(attempting := false)
    case RestartCommitted(now) =>
      v.attempting && v.spawning.Some? && v.core.NoCore? && v.bundle.Some? &&
      v.spawning.value.runtime == v.bundle.value.generation &&
      w == v.(core := Active(v.spawning.value), spawning := None, restart := NO_RESTART, attempting := false,
              livenessAt := Some(DeadlineAfter(now, LIVENESS_INTERVAL)))
    case LivenessArmed(at) => w == v.(livenessAt := Some(at))
  }

  // ---------------------------------------------------------------------------
  // Runs
  // ---------------------------------------------------------------------------

  datatype Entry = Entry(effect: Effect, view: View)

  ghost predicate StepAt(h: seq<Entry>, i: nat) {
    0 < i < |h| ==> Next(h[i - 1].view, h[i].effect, h[i].view)
  }

  ghost predicate IsRun(h: seq<Entry>) {
    |h| > 0 && h[0].effect.Started? && Initial(h[0].view) && forall i: nat :: StepAt(h, i)
  }

  /** A run grows by one step. */
  lemma RunGrows(h: seq<Entry>, e: Effect, w: View)
    requires IsRun(h) && Next(h[|h| - 1].view, e, w)
    ensures IsRun(h + [Entry(e, w)])
  {
    var h' := h + [Entry(e, w)];
    forall i: nat ensures StepAt(h', i) {
      assert StepAt(h, i);
    }
  }

  ghost predicate Invariant(v: View) {
    // every existing Core process is the one the service knows about
    && v.live <= CoreProcess(v.core) + (if v.spawning.Some? then {v.spawning.value.process} else {})
    && (v.spawning.Some? ==> v.core.NoCore? && v.owner.Some?)
    // a Core belongs to an owner
    && (!v.core.NoCore? ==> v.owner.Some?)
    // an active Core runs the last bundle, and nothing is pending
    && (v.core.Active? ==>
          v.bundle.Some? && v.core.record.runtime == v.bundle.value.generation && v.restart == NO_RESTART)
    // a pending restart has something to restart and no Core
    && (v.restart.dueAt.Some? ==> v.bundle.Some? && !v.core.Active? && !v.restart.degraded)
    && (v.attempting ==> v.restart.dueAt.Some? && v.owner.Some?)
    && (v.bundle.Some? ==> v.owner.Some?)
    // cancellation belongs to the owner, and a returned cancellation is still in force
    && (v.owner.Some? <==> v.cancelOwner.Some?)
    && (v.owner.Some? ==>
          v.cancelOwner == Some(v.owner.value.proof) && v.owner.value.proof.generation == v.openedGeneration)
    && v.openedGeneration <= v.ownerGeneration
    && (v.cancelOwner.Some? && v.cancelOwner.value in v.cancelled ==> v.cancelRequested)
    && (forall p :: p in v.cancelled ==> p.generation <= v.openedGeneration)
    && 1 <= v.limit <= U64_MAX
  }

  lemma InvariantStep(v: View, e: Effect, w: View)
    requires Invariant(v) && Next(v, e, w)
    ensures Invariant(w)
  {
  }

  lemma {:induction false} InvariantOverRuns(h: seq<Entry>, n: nat)
    requires IsRun(h) && n < |h|
    ensures Invariant(h[n].view)
    decreases n
  {
    if n > 0 {
      InvariantOverRuns(h, n - 1);
      assert StepAt(h, n);
      InvariantStep(h[n - 1].view, h[n].effect, h[n].view);
    }
  }

  // ---------------------------------------------------------------------------
  // At most one Core
  // ---------------------------------------------------------------------------

  /** Main result. In every run at most one Core process exists at any time, a Core is
      started only when no Core exists and none is recorded, and it belongs to an owner. */
  lemma AtMostOneCore(h: seq<Entry>, n: nat)
    requires IsRun(h) && n < |h|
    ensures forall p, q :: p in h[n].view.live && q in h[n].view.live ==> p == q
    ensures h[n].effect.Spawned? ==>
              n > 0 && h[n - 1].view.live == {} && h[n - 1].view.core.NoCore? &&
              h[n - 1].view.owner.Some? && h[n].view.live == {h[n].effect.record.process}
  {
    InvariantOverRuns(h, n);
    if n > 0 {
      InvariantOverRuns(h, n - 1);
      assert StepAt(h, n);
    }
  }

  // ---------------------------------------------------------------------------
  // A living owner is kept
  // ---------------------------------------------------------------------------

  /** The owner closed its session, or the service was shut down. */
  ghost predicate Ends(e: Effect, owner: Owner) {
    e == OwnerCleared(ClosedBy(owner.proof)) || e == OwnerCleared(ServiceShutdown)
  }

  /** Main result. As long as its supervisor lives, an owner keeps its session until it closes
      it or the service is shut down: nothing another supervisor or maintenance does takes it. */
  lemma {:induction false} LivingOwnerIsKept(h: seq<Entry>, i: nat, j: nat, owner: Owner)
    requires IsRun(h) && i <= j < |h| && h[i].view.owner == Some(owner) && Alive(h[j].view, owner.supervisor)
    requires forall k :: i < k <= j ==> !Ends(h[k].effect, owner)
    ensures h[j].view.owner == Some(owner)
    decreases j
  {
    if i < j {
      assert StepAt(h, j);
      LivingOwnerIsKept(h, i, j - 1, owner);
      assert !Ends(h[j].effect, owner);
    }
  }

  // ---------------------------------------------------------------------------
  // Cancellation linearises with apply
  // ---------------------------------------------------------------------------

  lemma {:induction false} CancelledIsRemembered(h: seq<Entry>, i: nat, j: nat, proof: Proof)
    requires IsRun(h) && i <= j < |h| && proof in h[i].view.cancelled
    ensures proof in h[j].view.cancelled
    decreases j
  {
    if i < j {
      CancelledIsRemembered(h, i, j - 1, proof);
      assert StepAt(h, j);
    }
  }

  /** Main result. Once a cancellation for a proof has returned, no apply for that proof
      commits in the rest of the run. */
  lemma CancelledApplyNeverCommits(h: seq<Entry>, i: nat, j: nat, proof: Proof, bundle: Bundle)
    requires IsRun(h) && i < j < |h| && h[i].effect == CancelRequested(proof)
    ensures h[j].effect != ApplyCommitted(proof, bundle)
  {
    assert StepAt(h, i);
    CancelledIsRemembered(h, i, j - 1, proof);
    InvariantOverRuns(h, j - 1);
    assert StepAt(h, j);
  }

  // ---------------------------------------------------------------------------
  // Restart policy
  // ---------------------------------------------------------------------------

  lemma {:induction false} Pow2Grows(k: nat)
    requires k >= 5
    ensures Pow2(k) >= 32
    decreases k
  {
    if k == 5 {
      assert Pow2(5) == 2 * Pow2(4) == 4 * Pow2(3) == 8 * Pow2(2) == 32;
    } else {
      Pow2Grows(k - 1);
    }
  }

  lemma {:induction false} Pow2Fits(k: nat, n: nat)
    requires k <= n
    ensures Pow2(k) <= Pow2(n)
    decreases n
  {
    if k < n {
      Pow2Fits(k, n - 1);
    }
  }

  /** The delay after failure k is min(2^k, 30) seconds, for every k. */
  lemma BackoffIsCappedDoubling(k: nat)
    ensures BackoffAfter(k) == Min(Pow2(k) * SECOND, MAX_BACKOFF)
  {
    if k >= 5 {
      Pow2Grows(k);
      if k < 32 {
        Pow2Grows(Min(k, U32_MAX));
      }
    } else {
      Pow2Fits(k, 4);
      assert Pow2(4) == 16;
    }
  }

  ghost predicate EndsRestarting(e: Effect) {
    e.OwnerOpened? || e.OwnerCleared? || e.ApplyCommitted? || e.CoreStopped?
  }

  /** The steps after `i` up to and including `j` that satisfy a test. */
  ghost function CountFailed(h: seq<Entry>, i: nat, j: nat): nat
    requires i <= j < |h|
    decreases j
  {
    if i == j then 0 else CountFailed(h, i, j - 1) + if h[j].effect.AttemptFailed? then 1 else 0
  }

  ghost function CountStarted(h: seq<Entry>, i: nat, j: nat): nat
    requires i <= j < |h|
    decreases j
  {
    if i == j then 0 else CountStarted(h, i, j - 1) + if h[j].effect.AttemptStarted? then 1 else 0
  }

  /** Nothing but restart attempts that fail in the ordinary way, and the world moving. */
  ghost predicate OnlyFailingRestarts(h: seq<Entry>, i: nat, j: nat) {
    i <= j < |h| &&
    forall k :: i < k <= j ==>
      !EndsRestarting(h[k].effect) && !h[k].effect.RestartCommitted? && !h[k].effect.AttemptAborted?
  }

  /** The restart state after `failed` ordinary failures out of `started` attempts. */
  ghost predicate Budget(v: View, started: nat, failed: nat) {
    && started == failed + (if v.attempting then 1 else 0)
    && failed <= v.limit
    && (failed < v.limit ==>
          !v.restart.degraded && v.restart.failures == started && v.restart.dueAt.Some? &&
          v.restart.backoff == Some(BackoffAfter(failed)))
    && (failed == v.limit <==> v.restart.degraded)
    && (v.restart.degraded ==> v.restart.dueAt.None? && v.restart.failures == v.limit && !v.attempting)
    && !v.core.Active?
  }

  lemma BudgetStep(v: View, e: Effect, w: View, started: nat, failed: nat)
    requires Invariant(v) && Next(v, e, w) && Budget(v, started, failed)
    requires !EndsRestarting(e) && !e.RestartCommitted? && !e.AttemptAborted?
    ensures w.limit == v.limit
    ensures Budget(w, if e.AttemptStarted? then started + 1 else started,
                   if e.AttemptFailed? then failed + 1 else failed)
  {
  }

  /** Main result. After an unexpected exit, while every attempt fails in the ordinary way,
      attempts and failures are counted exactly, the service is waiting with the capped
      doubling delay until the limit, and it is degraded after exactly `limit` attempts. */
  lemma {:induction false} RestartBudget(h: seq<Entry>, i: nat, j: nat)
    requires IsRun(h) && OnlyFailingRestarts(h, i, j) && h[i].effect.ExitObserved? && i > 0
    ensures h[j].view.limit == h[i].view.limit
    ensures Budget(h[j].view, CountStarted(h, i, j), CountFailed(h, i, j))
    decreases j
  {
    if i < j {
      RestartBudget(h, i, j - 1);
      InvariantOverRuns(h, j - 1);
      assert StepAt(h, j);
      BudgetStep(h[j - 1].view, h[j].effect, h[j].view, CountStarted(h, i, j - 1), CountFailed(h, i, j - 1));
    } else {
      BackoffIsCappedDoubling(0);
      assert StepAt(h, i);
      InvariantOverRuns(h, i - 1);
      InvariantOverRuns(h, i);
    }
  }

  /** The next attempt is due min(2^k, 30) seconds after failure k. */
  lemma DelayAfterFailure(h: seq<Entry>, i: nat, j: nat)
    requires IsRun(h) && OnlyFailingRestarts(h, i, j) && h[i].effect.ExitObserved? && 0 < i < j
    requires h[j].effect.AttemptFailed? && CountFailed(h, i, j) < h[j].view.limit
    ensures h[j].view.restart.dueAt ==
              Some(DeadlineAfter(h[j].effect.now, Min(Pow2(CountFailed(h, i, j)) * SECOND, MAX_BACKOFF)))
  {
    RestartBudget(h, i, j - 1);
    RestartBudget(h, i, j);
    assert StepAt(h, j);
    BackoffIsCappedDoubling(CountFailed(h, i, j));
  }

  ghost predicate AppliedOrOwnerChanged(e: Effect) {
    e.OwnerOpened? || e.OwnerCleared? || e.ApplyCommitted?
  }

  /** No restart is under way or pending, and none can be scheduled without a Core. */
  ghost predicate RestartsOver(v: View) {
    !v.attempting && v.restart.dueAt.None? && !v.core.Active? && (v.restart.degraded || v.bundle.None?)
  }

  /** Main result. A service that has degraded makes no restart attempt, and starts no Core of
      its own accord, until an apply commits or the owner changes; it stays degraded unless
      the Core is stopped. */
  lemma {:induction false} DegradedStaysQuiet(h: seq<Entry>, i: nat, j: nat)
    requires IsRun(h) && i <= j < |h| && h[i].view.restart.degraded
    requires forall k :: i < k <= j ==> !AppliedOrOwnerChanged(h[k].effect)
    ensures RestartsOver(h[j].view)
    ensures (forall k :: i < k <= j ==> !h[k].effect.CoreStopped?) ==> h[j].view.restart == h[i].view.restart
    ensures i < j ==> !h[j].effect.AttemptStarted? && !h[j].effect.RestartCommitted? && !h[j].effect.ExitObserved? &&
                      !(h[j].effect.Spawned? && h[j].effect.byRestart)
    decreases j
  {
    InvariantOverRuns(h, j);
    if i < j {
      DegradedStaysQuiet(h, i, j - 1);
      assert StepAt(h, j);
    }
  }
}
