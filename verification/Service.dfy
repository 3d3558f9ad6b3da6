/** `PrivilegedCoreRuntimeService` of `src/service.rs`, operation by operation.

    Every platform call may fail, and before each of them Core and supervisor processes may
    exit and a cancellation may arrive on another thread. Log draining, the control socket and the
    bundle's files are calls that succeed or fail; everything else is state. The ghost
    field `history` records each change; `Valid` says it is a run of ServiceProtocol. */
module Service {
  import opened Common
  import opened ServiceProtocol
  import Generations

  datatype ErrorKind =
    | ProtocolMismatch | Authentication | Unavailable | InvalidBundle | ProcessIdentityMismatch
    | ApplyFailed | Readiness | ReloadTimeout | TunPermissionDenied | TunUnsupported

  datatype Outcome =
    | Pending(attempts: nat, nextAttemptAt: nat)
    | Restarted(attempts: nat, core: CoreRecord)
    | Degraded(attempts: nat)

  datatype Maintenance = Unchanged | OwnerRevoked | UnexpectedExit(outcome: Outcome)

  datatype MaintenanceReport = MaintenanceReport(outcome: Maintenance, nextDeadline: nat)

  type Done = Result<(), ErrorKind>

  /** Only the world moved: processes exited, a cancellation arrived. */
  ghost predicate Moved(v: View, w: View) {
    w == v.(live := w.live, gone := w.gone, cancelRequested := w.cancelRequested, cancelled := w.cancelled) &&
    w.live <= v.live && v.gone <= w.gone && (v.cancelRequested ==> w.cancelRequested)
  }

  predicate Authenticated(v: View, proof: Proof) {
    v.owner.Some? && v.owner.value.proof == proof
  }

  /** The apply of this proof's owner has not been cancelled. */
  predicate Permits(v: View, proof: Proof) {
    v.cancelOwner == Some(proof) && !v.cancelRequested
  }

  /** `maintenance_result`. */
  function NextDeadline(v: View): (at: nat)
    ensures v.restart.dueAt.Some? ==> at <= v.restart.dueAt.value
    ensures v.livenessAt.Some? ==> at <= v.livenessAt.value
    ensures at == DURATION_MAX || v.restart.dueAt == Some(at) || v.livenessAt == Some(at)
  {
    match (v.restart.dueAt, v.livenessAt)
    case (Some(due), Some(liveness)) => Min(due, liveness)
    case (Some(due), None) => due
    case (None, Some(liveness)) => liveness
    case (None, None) => DURATION_MAX
  }

  class PrivilegedCoreRuntimeService {
    const protocolVersion: nat
    /** Whether no platform call fails and nothing else moves while an operation runs. */
    const reliable: bool
    /** The service's state, its cancellation state and the Core processes on the machine. */
    var state: View
    ghost var history: seq<Entry>

    /** The history is a run that ends in the present state. */
    ghost predicate Synced()
      reads this
    {
      IsRun(history) && history[|history| - 1].view == state && Invariant(state)
    }

    /** Between operations nothing is in flight. */
    ghost predicate Valid()
      reads this
    {
      Synced() && state.spawning.None? && !state.attempting
    }

    /** Makes one change to the state. */
    method Change(ghost e: Effect, w: View)
      requires Synced() && Next(state, e, w)
      modifies this
      ensures Synced() && state == w && history == old(history) + [Entry(e, w)]
    {
      InvariantStep(state, e, w);
      RunGrows(history, e, w);
      state := w;
      history := history + [Entry(e, w)];
    }

    constructor (protocolVersion: nat, restartLimit: nat, ownerGeneration: nat, coreGeneration: nat, reliable: bool)
      requires 1 <= restartLimit <= U64_MAX
      ensures Valid() && Initial(state) && state.limit == restartLimit
      ensures this.protocolVersion == protocolVersion && this.reliable == reliable
      ensures state.ownerGeneration == ownerGeneration && state.coreGeneration == coreGeneration
    {
      this.protocolVersion, this.reliable := protocolVersion, reliable;
      state := View(restartLimit, ownerGeneration, 0, coreGeneration, None, NoCore, None, NO_RESTART, None,
                    None, false, {}, None, false, {}, 0, 0, {});
      new;
      history := [Entry(Started, state)];
    }

    // -------------------------------------------------------------------------
    // The platform
    // -------------------------------------------------------------------------

    /** Other threads and processes move. */
    method Interfere()
      requires Synced()
      modifies this
      ensures Synced() && old(history) <= history && Moved(old(state), state)
      ensures reliable ==> state == old(state)
    {
      if reliable {
        return;
      }
      var survivors: set<ProcessId> := *;
      Change(ProcessesExited, state.(live := state.live * survivors));
      var exited: set<SupervisorProcess> := *;
      Change(SupervisorsExited, state.(gone := state.gone + exited));
      var cancels: bool := *;
      if cancels && state.cancelOwner.Some? {
        var proof := state.cancelOwner.value;
        Change(CancelRequested(proof), state.(cancelRequested := true, cancelled := state.cancelled + {proof}));
      }
    }

    /** `owned_process_is_live`: inspection may fail, and is truthful when it does not. */
    method OwnedProcessIsLive(process: ProcessId) returns (r: Result<bool, ErrorKind>)
      requires Synced()
      modifies this
      ensures Synced() && old(history) <= history && Moved(old(state), state)
      ensures r.Ok? ==> r.value == (process in state.live)
      ensures r.Err? ==> r.error == Unavailable
      ensures reliable ==> r.Ok? && state == old(state)
    {
      Interfere();
      var fails: bool := *;
      r := if fails && !reliable then Err(Unavailable) else Ok(process in state.live);
    }

    /** `start_identity` of a supervisor's pid, compared with the start it had: inspection may
        fail, and is truthful when it does not. */
    method SupervisorIsAlive(s: Supervisor) returns (r: Result<bool, ErrorKind>)
      ensures r.Ok? ==> r.value == Alive(state, s)
      ensures r.Err? ==> r.error == Unavailable
      ensures reliable ==> r.Ok?
    {
      var fails: bool := *;
      r := if fails && !reliable then Err(Unavailable) else Ok(Alive(state, s));
    }

    /** `require_owned_process`. */
    method RequireOwnedProcess(process: ProcessId) returns (r: Done)
      requires Synced()
      modifies this
      ensures Synced() && old(history) <= history && Moved(old(state), state)
      ensures r.Ok? ==> process in state.live
      ensures r.Err? ==> r.error in {Unavailable, ProcessIdentityMismatch}
      ensures reliable ==> state == old(state) && (process in state.live ==> r.Ok?)
    {
      var alive := OwnedProcessIsLive(process);
      r := if alive.Err? then Err(alive.error) else if alive.value then Ok(()) else Err(ProcessIdentityMismatch);
    }

    /** Any platform call that only succeeds or fails. */
    method PlatformCall(kind: ErrorKind) returns (r: Done)
      requires Synced()
      modifies this
      ensures Synced() && old(history) <= history && Moved(old(state), state)
      ensures r.Err? ==> r.error == kind
      ensures reliable ==> r.Ok? && state == old(state)
    {
      Interfere();
      var fails: bool := *;
      r := if fails && !reliable then Err(kind) else Ok(());
    }

    method StopProcess(process: ProcessId) returns (r: Done)
      requires Synced()
      modifies this
      ensures Synced() && old(history) <= history && Moved(old(state), state)
      ensures r.Ok? ==> process !in state.live
      ensures r.Err? ==> r.error == ApplyFailed
      ensures reliable ==> r.Ok? && state == old(state).(live := old(state).live - {process})
    {
      Interfere();
      var fails: bool := *;
      if fails && !reliable {
        return Err(ApplyFailed);
      }
      Change(ProcessesExited, state.(live := state.live - {process}));
      r := Ok(());
    }

    /** `reserve_owner_generation` and `reserve_core_instance_generation`: a failed persist may
        still have raised the counters in memory. */
    method ReserveGeneration(forOwner: bool) returns (r: Result<nat, ErrorKind>)
      requires Synced()
      modifies this
      ensures Synced() && old(history) <= history
      ensures state == old(state).(ownerGeneration := state.ownerGeneration, coreGeneration := state.coreGeneration)
      ensures state.ownerGeneration >= old(state).ownerGeneration
      ensures r.Ok? && forOwner ==> r.value == state.ownerGeneration > old(state).ownerGeneration
      ensures r.Ok? && !forOwner ==> r.value == state.coreGeneration > old(state).coreGeneration
      ensures r.Err? ==> r.error == Unavailable
      ensures reliable && (if forOwner then old(state).ownerGeneration else old(state).coreGeneration) < U64_MAX ==>
                r.Ok?
    {
      var unreadable: bool := *;
      var persistedOwner: nat, persistedCore: nat := *, *;
      if reliable {
        persistedOwner, persistedCore, unreadable := 0, 0, false;
      }
      if unreadable || persistedOwner > U64_MAX || persistedCore > U64_MAX {
        return Err(Unavailable);
      }
      var raised := Generations.Raise(Generations.Counters(state.ownerGeneration, state.coreGeneration),
                                      Generations.Counters(persistedOwner, persistedCore), forOwner);
      var c := match raised case Ok(c) => c case Err(c) => c;
      Change(GenerationsReserved, state.(ownerGeneration := c.owner, coreGeneration := c.core));
      var unpersisted: bool := *;
      r := if raised.Err? || (unpersisted && !reliable) then Err(Unavailable)
           else Ok(if forOwner then c.owner else c.core);
    }

    // -------------------------------------------------------------------------
    // Apply cancellation
    // -------------------------------------------------------------------------

    method EnsureApplyActive(proof: Proof) returns (r: Done)
      requires Synced()
      modifies this
      ensures Synced() && old(history) <= history && Moved(old(state), state)
      ensures r.Ok? <==> state.cancelOwner == Some(proof) && !state.cancelRequested
      ensures r.Err? ==> r.error == if state.cancelOwner != Some(proof) then Authentication else ReloadTimeout
      ensures reliable ==> state == old(state)
    {
      Interfere();
      if state.cancelOwner != Some(proof) {
        return Err(Authentication);
      }
      r := if state.cancelRequested then Err(ReloadTimeout) else Ok(());
    }

    method CancelPendingApply(proof: Proof) returns (r: Done)
      requires Valid()
      modifies this
      ensures Valid() && old(history) <= history && Moved(old(state), state)
      ensures r.Ok? <==> old(state).cancelOwner == Some(proof)
      ensures r.Ok? ==> state.cancelRequested && history[|history| - 1].effect == CancelRequested(proof)
      ensures r.Err? ==> r.error == Authentication && history == old(history)
    {
      if state.cancelOwner != Some(proof) {
        return Err(Authentication);
      }
      Change(CancelRequested(proof), state.(cancelRequested := true, cancelled := state.cancelled + {proof}));
      r := Ok(());
    }

    // -------------------------------------------------------------------------
    // Stopping and cleaning up
    // -------------------------------------------------------------------------

    method StopOwnedRecord(record: CoreRecord) returns (r: Done)
      requires Synced()
      modifies this
      ensures Synced() && old(history) <= history && Moved(old(state), state)
      ensures r.Ok? ==> record.process !in state.live
      ensures r.Err? ==> r.error in {Unavailable, ApplyFailed}
      ensures reliable ==> r.Ok? && state == old(state).(live := old(state).live - {record.process})
    {
      var alive := OwnedProcessIsLive(record.process);
      if alive.Err? {
        return Err(alive.error);
      }
      if alive.value {
        var stopped := StopProcess(record.process);
        if stopped.Err? {
          return stopped;
        }
      }
      var drained := PlatformCall(Unavailable);
      if drained.Err? {
        return drained;
      }
      r := PlatformCall(Unavailable);
    }

    method CleanupPendingCore() returns (r: Done)
      requires Synced() && state.spawning.None?
      modifies this
      ensures Synced() && old(history) <= history
      ensures Moved(old(state), state.(core := old(state).core))
      ensures state.core == if old(state).core.CleanupPending? && r.Ok? then NoCore else old(state).core
      ensures !old(state).core.CleanupPending? ==> r.Ok? && state == old(state)
      ensures reliable ==> r.Ok? && state.cancelRequested == old(state).cancelRequested
      ensures r.Err? ==> r.error in {Unavailable, ApplyFailed}
    {
      r := Ok(());
      if state.core.CleanupPending? {
        r := StopOwnedRecord(state.core.record);
        if r.Ok? {
          Change(CoreGone, state.(core := NoCore));
        }
      }
    }

    method CleanupOwner(ghost cause: Clearing) returns (r: Done)
      requires Valid() && MayClear(state, cause)
      modifies this
      ensures Valid() && old(history) <= history
      ensures state.commits == old(state).commits && state.applySpawns == old(state).applySpawns
      ensures state.ownerGeneration == old(state).ownerGeneration
      ensures r.Ok? ==> state.owner.None? && state.core.NoCore? && state.bundle.None? && state.live == {} &&
                        state.restart == NO_RESTART && state.livenessAt.None? && state.cancelOwner.None? &&
                        (old(state).owner.Some? ==> state.cancelRequested)
      ensures r.Err? ==> Moved(old(state), state)
      ensures reliable ==> r.Ok?
    {
      if !state.core.NoCore? {
        r := StopOwnedRecord(state.core.record);
        if r.Err? {
          return;
        }
      }
      Change(OwnerCleared(cause),
             state.(owner := None, core := NoCore, bundle := None, restart := NO_RESTART, livenessAt := None,
                    cancelOwner := None,
                    cancelRequested := if state.owner.Some? then true else state.cancelRequested));
      r := Ok(());
    }

    // -------------------------------------------------------------------------
    // Starting a Core
    // -------------------------------------------------------------------------

    /** The state without the parts a start may touch. */
    ghost predicate StartFrame(v: View, w: View) {
      v.owner == w.owner && v.bundle == w.bundle && v.restart == w.restart && v.livenessAt == w.livenessAt &&
      v.cancelOwner == w.cancelOwner && v.attempting == w.attempting && v.commits == w.commits && v.limit == w.limit &&
      (v.attempting ==> v.applySpawns == w.applySpawns)
    }

    method FailAfterUncommittedSpawn(record: CoreRecord, primary: ErrorKind) returns (error: ErrorKind)
      requires Synced() && state.spawning == Some(record)
      modifies this
      ensures Synced() && old(history) <= history && StartFrame(old(state), state)
      ensures state.spawning.None? && state.core in {NoCore, CleanupPending(record)}
      ensures error == if state.core.NoCore? then primary else Unavailable
      ensures reliable ==> state.core.NoCore?
    {
      Change(SpawnPended, state.(core := CleanupPending(record), spawning := None));
      var cleaned := CleanupPendingCore();
      error := if cleaned.Ok? then primary else Unavailable;
    }

    /** Confirms a started Core, step by step; the caller undoes the start on failure. */
    method ConfirmSpawn(record: CoreRecord, proof: Proof) returns (r: Done)
      requires Synced()
      modifies this
      ensures Synced() && old(history) <= history && Moved(old(state), state)
      ensures old(state).cancelRequested ==> r.Err?
      ensures r.Err? ==> r.error != InvalidBundle
      ensures reliable && Permits(old(state), proof) && record.process in old(state).live ==>
                r.Ok? && state == old(state)
    {
      r := EnsureApplyActive(proof);
      if r.Err? {
        return;
      }
      r := RequireOwnedProcess(record.process);
      if r.Err? {
        return;
      }
      var cancelled: bool := *;
      r := PlatformCall(if cancelled then ReloadTimeout else Readiness);
      if r.Err? {
        return;
      }
      r := EnsureApplyActive(proof);
      if r.Err? {
        return;
      }
      r := PlatformCall(ApplyFailed);
      if r.Err? {
        return;
      }
      r := EnsureApplyActive(proof);
    }

    /** A start is confirmed and still uncommitted, or undone, or left for cleanup. */
    method SpawnVerified(owner: Owner, generation: nat) returns (r: Result<CoreRecord, ErrorKind>)
      requires Synced() && state.spawning.None? && state.core.NoCore? && state.owner == Some(owner)
      modifies this
      ensures Synced() && old(history) <= history && StartFrame(old(state), state)
      ensures r.Ok? ==> state.core.NoCore? && state.spawning == Some(r.value) && r.value.runtime == generation
      ensures old(state).cancelRequested ==> r.Err?
      ensures r.Err? ==> state.spawning.None? && !state.core.Active? && r.error != InvalidBundle
      ensures reliable ==> state.core.NoCore?
      ensures reliable && Permits(old(state), owner.proof) && old(state).coreGeneration < U64_MAX ==>
                r.Ok? && Permits(state, owner.proof)
    {
      var reserved := ReserveGeneration(false);
      if reserved.Err? {
        return Err(reserved.error);
      }
      var cancelled: bool := *;
      var spawns := PlatformCall(if cancelled then ReloadTimeout else ApplyFailed);
      if spawns.Err? {
        return Err(spawns.error);
      }
      var pid: nat, start: string := *, *;
      if reliable {
        pid, start := 1, "now";
      }
      if pid == 0 || start == "" {
        return Err(ProcessIdentityMismatch);
      }
      var record := CoreRecord(ProcessId(pid, start, reserved.value), generation);
      Change(Spawned(record, state.attempting),
             state.(live := state.live + {record.process}, spawning := Some(record),
                    applySpawns := state.applySpawns + if state.attempting then 0 else 1));
      var confirmed := ConfirmSpawn(record, owner.proof);
      if confirmed.Err? {
        var error := FailAfterUncommittedSpawn(record, confirmed.error);
        return Err(error);
      }
      r := Ok(record);
    }

    method TunCheck() returns (r: Done)
      requires Synced()
      modifies this
      ensures Synced() && old(history) <= history && Moved(old(state), state)
      ensures r.Err? ==> r.error in {TunPermissionDenied, TunUnsupported, Unavailable}
      ensures reliable ==> r.Ok? && state == old(state)
    {
      var unsupported: bool, denied: bool := *, *;
      r := PlatformCall(if denied then TunPermissionDenied else if unsupported then TunUnsupported else Unavailable);
    }

    // -------------------------------------------------------------------------
    // Operations
    // -------------------------------------------------------------------------

    predicate Complete(request: Supervisor) {
      request.pid != 0 && request.start != "" && request.token != ""
    }

    predicate Owns(v: View, request: Supervisor) {
      v.owner.Some? && v.owner.value.supervisor == request
    }

    /** Another supervisor has the session, and it lives. */
    predicate Blocked(v: View, request: Supervisor) {
      v.owner.Some? && v.owner.value.supervisor != request && Alive(v, v.owner.value.supervisor)
    }

    method OpenOwnerSession(version: nat, request: Supervisor) returns (r: Result<Owner, ErrorKind>)
      requires Valid()
      modifies this
      ensures Valid() && old(history) <= history
      ensures state.commits == old(state).commits && state.applySpawns == old(state).applySpawns
      ensures r.Ok? ==> state.owner == Some(r.value) && r.value.supervisor == request &&
                        state.cancelOwner == Some(r.value.proof)
      ensures r.Ok? && old(state).owner == Some(r.value) ==> state == old(state)
      ensures r.Ok? && old(state).owner != Some(r.value) ==>
                state.core.NoCore? && state.live == {} && !state.cancelRequested && state.restart == NO_RESTART &&
                r.value.generation > old(state).ownerGeneration
      ensures old(state).owner.Some? && state.owner.Some? && old(state).owner != state.owner ==>
                old(state).owner.value.supervisor != request
      ensures version != protocolVersion ==> r == Err(ProtocolMismatch) && state == old(state)
      ensures version == protocolVersion && !Complete(request) ==> r == Err(Authentication) && state == old(state)
      // its own session is given back to the supervisor that has it
      ensures version == protocolVersion && Complete(request) && Owns(old(state), request) ==>
                state == old(state) && (r == Ok(old(state).owner.value) || r == Err(Authentication)) &&
                (reliable ==> r.Ok?)
      // a living owner is not displaced
      ensures Blocked(old(state), request) ==> r.Err? && state == old(state)
      ensures reliable && version == protocolVersion && Complete(request) ==>
                (if Blocked(old(state), request) then r == Err(Authentication)
                 else Owns(old(state), request) || old(state).ownerGeneration < U64_MAX ==> r.Ok?)
    {
      if version != protocolVersion {
        return Err(ProtocolMismatch);
      }
      if !Complete(request) {
        return Err(Authentication);
      }
      var invalid: bool := *;
      if invalid && !reliable {
        return Err(Authentication);
      }
      if state.owner.Some? {
        if state.owner.value.supervisor == request {
          return Ok(state.owner.value);
        }
        var alive := SupervisorIsAlive(state.owner.value.supervisor);
        if alive.Err? {
          return Err(alive.error);
        }
        if alive.value {
          return Err(Authentication);
        }
        var cleaned := CleanupOwner(SupervisorGone);
        if cleaned.Err? {
          return Err(cleaned.error);
        }
      }
      r := OpenFresh(request);
    }

    method OpenFresh(request: Supervisor) returns (r: Result<Owner, ErrorKind>)
      requires Valid() && state.owner.None?
      modifies this
      ensures Valid() && old(history) <= history
      ensures state.commits == old(state).commits && state.applySpawns == old(state).applySpawns
      ensures r.Ok? ==> state.owner == Some(r.value) && r.value.supervisor == request &&
                        state.cancelOwner == Some(r.value.proof) && !state.cancelRequested &&
                        state.core.NoCore? && state.live == {} && state.restart == NO_RESTART &&
                        r.value.generation > old(state).ownerGeneration
      ensures r.Err? ==> state.owner.None?
      ensures reliable && old(state).ownerGeneration < U64_MAX ==> r.Ok?
    {
      var reserved := ReserveGeneration(true);
      if reserved.Err? {
        return Err(reserved.error);
      }
      var secret: string, token: string, endpoint: string := *, *, *;
      var failed: bool := *;
      if reliable {
        secret, token, endpoint, failed := "id", "token", "endpoint", false;
      }
      if failed || secret == "" || token == "" || endpoint == "" {
        return Err(Unavailable);
      }
      var session := Owner(request, reserved.value, Proof(reserved.value, secret, token));
      Change(OwnerOpened(session),
             state.(owner := Some(session), openedGeneration := session.generation,
                    cancelOwner := Some(session.proof), cancelRequested := false,
                    restart := NO_RESTART, livenessAt := None));
      r := Ok(session);
    }

    /** Nothing stands in the way of an apply: it is not cancelled, the recorded Active Core runs,
        and generations are left. */
    predicate Ready(v: View, proof: Proof) {
      Permits(v, proof) && (v.core.Active? ==> v.core.record.process in v.live) && v.coreGeneration < U64_MAX
    }

    /** Everything `apply_candidate` does before it starts a new Core. */
    method PrepareApply(proof: Proof) returns (r: Done)
      requires Valid() && Authenticated(state, proof)
      modifies this
      ensures Valid() && old(history) <= history
      ensures StartFrame(old(state), state) && state.applySpawns == old(state).applySpawns
      ensures r.Ok? ==> state.core.NoCore?
      ensures state.core.Active? ==> state.core == old(state).core
      ensures reliable && Ready(old(state), proof) ==> r.Ok? && Ready(state, proof)
    {
      r := CleanupPendingCore();
      if r.Err? {
        return;
      }
      r := EnsureApplyActive(proof);
      if r.Err? {
        return;
      }
      r := PlatformCall(InvalidBundle);
      if r.Err? {
        return;
      }
      r := EnsureApplyActive(proof);
      if r.Err? {
        return;
      }
      r := TunCheck();
      if r.Err? {
        return;
      }
      r := EnsureApplyActive(proof);
      if r.Err? {
        return;
      }
      if state.core.Active? {
        r := RetireActive(proof);
      }
    }

    /** The record was demoted while its process was alive, so before it was stopped. */
    ghost predicate DemotedAlive(before: seq<Entry>, after: seq<Entry>, record: CoreRecord) {
      exists k :: |before| <= k < |after| && after[k].effect.Demoted? &&
                  after[k].view.core == CleanupPending(record) && record.process in after[k].view.live
    }

    method RetireActive(proof: Proof) returns (r: Done)
      requires Valid() && state.core.Active?
      modifies this
      ensures Valid() && old(history) <= history
      ensures StartFrame(old(state), state) && state.applySpawns == old(state).applySpawns
      ensures r.Ok? ==> state.core.NoCore?
      ensures state.core.Active? ==> state.core == old(state).core
      ensures r.Ok? ==> DemotedAlive(old(history), history, old(state).core.record)
      ensures reliable && Ready(old(state), proof) ==> r.Ok? && Ready(state, proof)
    {
      r := RequireOwnedProcess(state.core.record.process);
      if r.Err? {
        return;
      }
      Change(Demoted, state.(core := CleanupPending(state.core.record)));
      ghost var k := |history| - 1;
      assert history[k].effect.Demoted?;
      r := CleanupPendingCore();
      if r.Err? {
        return;
      }
      r := EnsureApplyActive(proof);
    }

    /** An apply commits a Core that runs the candidate, or leaves bundle and restart as they were. */
    method ApplyCandidate(proof: Proof, candidate: Bundle) returns (r: Result<CoreRecord, ErrorKind>)
      requires Valid()
      modifies this
      ensures Valid() && old(history) <= history && state.owner == old(state).owner
      ensures r.Ok? ==> Authenticated(old(state), proof) &&
                        state.core == Active(r.value) && r.value.runtime == candidate.generation &&
                        state.bundle == Some(candidate) && state.restart == NO_RESTART && state.livenessAt.None? &&
                        history[|history| - 1].effect == ApplyCommitted(proof, candidate) &&
                        state.commits == old(state).commits + 1
      ensures r.Err? ==> StartFrame(old(state), state) && (state.core.Active? ==> state.core == old(state).core)
      ensures !Authenticated(old(state), proof) ==> r == Err(Authentication) && state == old(state)
      ensures reliable && Authenticated(old(state), proof) && Ready(old(state), proof) ==> r.Ok?
    {
      if !Authenticated(state, proof) {
        return Err(Authentication);
      }
      var prepared := PrepareApply(proof);
      if prepared.Err? {
        return Err(prepared.error);
      }
      var spawned := SpawnVerified(state.owner.value, candidate.generation);
      if spawned.Err? {
        return Err(spawned.error);
      }
      var active := EnsureApplyActive(proof);
      if active.Err? {
        var error := FailAfterUncommittedSpawn(spawned.value, active.error);
        return Err(error);
      }
      // The cancellation lock is held from this last check to the commit.
      Change(ApplyCommitted(proof, candidate),
             state.(core := Active(spawned.value), spawning := None, bundle := Some(candidate),
                    restart := NO_RESTART, livenessAt := None, commits := state.commits + 1));
      r := Ok(spawned.value);
    }

    method Stop(proof: Proof) returns (r: Result<Option<nat>, ErrorKind>)
      requires Valid()
      modifies this
      ensures Valid() && old(history) <= history && state.owner == old(state).owner
      ensures state.commits == old(state).commits && state.applySpawns == old(state).applySpawns
      ensures r.Ok? && r.value.None? ==> old(state).core.NoCore? && state == old(state)
      ensures r.Ok? && r.value.Some? ==>
                !old(state).core.NoCore? && r.value.value == old(state).core.record.process.instance &&
                state.core.NoCore? && state.live == {} && state.bundle.None? && state.restart == NO_RESTART &&
                state.livenessAt.None?
      ensures r.Err? ==> Moved(old(state), state)
      ensures !Authenticated(old(state), proof) ==> r == Err(Authentication) && state == old(state)
      ensures Authenticated(old(state), proof) && old(state).core.NoCore? ==> r == Ok(None)
      ensures reliable && Authenticated(old(state), proof) ==>
                (r.Err? <==> old(state).core.Active? && old(state).core.record.process !in old(state).live)
    {
      if !Authenticated(state, proof) {
        return Err(Authentication);
      }
      if state.core.NoCore? {
        return Ok(None);
      }
      if state.core.Active? {
        var required := RequireOwnedProcess(state.core.record.process);
        if required.Err? {
          return Err(required.error);
        }
      }
      var instance := state.core.record.process.instance;
      var stopped := StopOwnedRecord(state.core.record);
      if stopped.Err? {
        return Err(stopped.error);
      }
      Change(CoreStopped, state.(core := NoCore, bundle := None, restart := NO_RESTART, livenessAt := None));
      r := Ok(Some(instance));
    }

    /** `close_owner_session` and `revoke_owner`. */
    method CloseOwnerSession(proof: Proof) returns (r: Done)
      requires Valid()
      modifies this
      ensures Valid() && old(history) <= history && state.commits == old(state).commits
      ensures r.Ok? ==> Authenticated(old(state), proof) && state.owner.None? && state.core.NoCore? && state.live == {}
      ensures r.Err? ==> Moved(old(state), state)
      ensures !Authenticated(old(state), proof) ==> r == Err(Authentication) && state == old(state)
      ensures reliable && Authenticated(old(state), proof) ==> r.Ok?
    {
      if !Authenticated(state, proof) {
        return Err(Authentication);
      }
      r := CleanupOwner(ClosedBy(proof));
    }

    /** `shutdown_service`. */
    method ShutdownService() returns (r: Done)
      requires Valid()
      modifies this
      ensures Valid() && old(history) <= history && state.commits == old(state).commits
      ensures r.Ok? ==> state.owner.None? && state.core.NoCore? && state.live == {} && state.cancelOwner.None?
      ensures r.Err? ==> Moved(old(state), state)
      ensures reliable ==> r.Ok?
    {
      r := CleanupOwner(ServiceShutdown);
    }

    /** The tail shared by the two ways an exit is noticed. */
    method ForgetExitedCore(now: nat) returns (r: Result<Outcome, ErrorKind>)
      requires Valid() && state.core.Active? && state.core.record.process !in state.live
      modifies this
      ensures Valid() && old(history) <= history
      ensures r.Ok? ==> Moved(old(state).(core := NoCore, restart := InitialRestart(now)), state) &&
                        r.value == Pending(0, state.restart.dueAt.value) &&
                        history[|history| - 1].effect == ExitObserved(now)
      ensures r.Err? ==> Moved(old(state), state)
      ensures reliable ==> r.Ok?
    {
      var drained := PlatformCall(Unavailable);
      if drained.Err? {
        return Err(drained.error);
      }
      var removed := PlatformCall(Unavailable);
      if removed.Err? {
        return Err(removed.error);
      }
      Change(ExitObserved(now), state.(core := NoCore, restart := InitialRestart(now)));
      r := Ok(Pending(0, state.restart.dueAt.value));
    }

    method HandleUnexpectedExit(proof: Proof, exited: ProcessId, now: nat) returns (r: Result<Outcome, ErrorKind>)
      requires Valid()
      modifies this
      ensures Valid() && old(history) <= history
      ensures r.Ok? ==> old(state).core.Active? && old(state).core.record.process == exited &&
                        Moved(old(state).(core := NoCore, restart := InitialRestart(now)), state) &&
                        exited !in state.live && r.value == Pending(0, state.restart.dueAt.value)
      ensures r.Err? ==> Moved(old(state), state)
      ensures !Authenticated(old(state), proof) ==> r == Err(Authentication) && state == old(state)
      ensures Authenticated(old(state), proof) && old(state).core.CleanupPending? ==>
                r == Err(Unavailable) && state == old(state)
      ensures Authenticated(old(state), proof) && old(state).core.NoCore? ==>
                r == Err(ProcessIdentityMismatch) && state == old(state)
      ensures Authenticated(old(state), proof) && old(state).core.Active? ==>
                old(state).core.record.process == exited || (r == Err(ProcessIdentityMismatch) && state == old(state))
      ensures reliable && Authenticated(old(state), proof) && old(state).core.Active? ==>
                (r.Ok? <==> old(state).core.record.process == exited && exited !in old(state).live)
    {
      if !Authenticated(state, proof) {
        return Err(Authentication);
      }
      if state.core.CleanupPending? {
        return Err(Unavailable);
      }
      if state.core.NoCore? || state.core.record.process != exited {
        return Err(ProcessIdentityMismatch);
      }
      var alive := OwnedProcessIsLive(exited);
      if alive.Err? {
        return Err(alive.error);
      }
      if alive.value {
        return Err(ProcessIdentityMismatch);
      }
      r := ForgetExitedCore(now);
    }

    /** Verifies the bundle, checks TUN and starts a Core. */
    method TryRestart(owner: Owner, generation: nat) returns (r: Result<CoreRecord, ErrorKind>)
      requires Synced() && state.spawning.None? && state.core.NoCore? && state.owner == Some(owner)
      modifies this
      ensures Synced() && old(history) <= history && StartFrame(old(state), state)
      ensures r.Ok? ==> state.core.NoCore? && state.spawning == Some(r.value) && r.value.runtime == generation
      ensures old(state).cancelRequested ==> r.Err?
      ensures r.Err? ==> state.spawning.None? && !state.core.Active?
      ensures reliable ==> state.core.NoCore? && (r.Err? ==> r.error != InvalidBundle)
      ensures reliable && Permits(old(state), owner.proof) && old(state).coreGeneration < U64_MAX ==> r.Ok?
    {
      var verified := PlatformCall(InvalidBundle);
      if verified.Err? {
        return Err(verified.error);
      }
      var tun := TunCheck();
      if tun.Err? {
        return Err(tun.error);
      }
      r := SpawnVerified(owner, generation);
    }

    /** What an attempt leaves behind, by its result. */
    ghost predicate Attempted(v: View, w: View, r: Result<Outcome, ErrorKind>, now: nat) {
      var attempt := SaturatingAdd(v.restart.failures, 1);
      v.owner == w.owner && v.bundle == w.bundle && v.commits == w.commits && v.applySpawns == w.applySpawns &&
      match r
      case Ok(Restarted(attempts, record)) =>
        attempts == attempt && w.core == Active(record) && w.restart == NO_RESTART &&
        w.livenessAt == Some(DeadlineAfter(now, LIVENESS_INTERVAL))
      case Ok(Degraded(attempts)) =>
        attempts == attempt >= v.limit && w.core.NoCore? && w.restart == Restart(true, attempt, true, None, None) &&
        w.livenessAt == v.livenessAt
      case Ok(Pending(attempts, at)) =>
        attempts == attempt < v.limit && w.core.NoCore? && w.livenessAt == v.livenessAt &&
        at == DeadlineAfter(now, BackoffAfter(attempt)) && w.restart.dueAt == Some(at) &&
        w.restart.failures == attempt && !w.restart.degraded
      case Err(error) =>
        (error == InvalidBundle || w.core.CleanupPending?) && w.restart == v.restart.(failures := attempt)
    }

    method AttemptOwnedCoreRestart(owner: Owner, now: nat) returns (r: Result<Outcome, ErrorKind>)
      requires Valid() && state.owner == Some(owner) && state.core.NoCore?
      requires state.restart.dueAt.Some? && state.restart.dueAt.value <= now
      modifies this
      ensures Valid() && old(history) <= history && Attempted(old(state), state, r, now)
      ensures old(state).cancelRequested ==> !(r.Ok? && r.value.Restarted?)
      ensures reliable ==> r.Ok?
      ensures reliable && Permits(old(state), owner.proof) && old(state).coreGeneration < U64_MAX ==>
                r.Ok? && r.value.Restarted?
    {
      var failures := SaturatingAdd(state.restart.failures, 1);
      Change(AttemptStarted(now), state.(restart := state.restart.(failures := failures), attempting := true));
      var restarted := TryRestart(owner, state.bundle.value.generation);
      if restarted.Err? && (restarted.error == InvalidBundle || state.core.CleanupPending?) {
        Change(AttemptAborted, state.(attempting := false));
        return Err(restarted.error);
      }
      if restarted.Ok? {
        Change(RestartCommitted(now),
               state.(core := Active(restarted.value), spawning := None, restart := NO_RESTART, attempting := false,
                      livenessAt := Some(DeadlineAfter(now, LIVENESS_INTERVAL))));
        return Ok(Restarted(failures, restarted.value));
      }
      var outcome := RecordFailure(failures, now);
      r := Ok(outcome);
    }

    /** An ordinary failure waits for the next attempt, or degrades the service at the limit. */
    method RecordFailure(failures: nat, now: nat) returns (outcome: Outcome)
      requires Synced() && state.attempting && state.spawning.None? && state.core.NoCore?
      requires state.restart.failures == failures
      modifies this
      ensures Valid() && old(history) <= history
      ensures state == old(state).(restart := state.restart, attempting := false)
      ensures failures >= state.limit ==>
                outcome == Degraded(failures) && state.restart == Restart(true, failures, true, None, None)
      ensures failures < state.limit ==>
                var next := DeadlineAfter(now, BackoffAfter(failures));
                outcome == Pending(failures, next) &&
                state.restart == old(state).restart.(dueAt := Some(next), backoff := Some(BackoffAfter(failures)))
    {
      if failures >= state.limit {
        Change(AttemptFailed(now), state.(restart := Restart(true, failures, true, None, None), attempting := false));
        return Degraded(failures);
      }
      var backoff := BackoffAfter(failures);
      var next := DeadlineAfter(now, backoff);
      Change(AttemptFailed(now),
             state.(restart := state.restart.(dueAt := Some(next), backoff := Some(backoff)), attempting := false));
      outcome := Pending(failures, next);
    }

    method ArmLiveness(at: nat)
      requires Valid()
      modifies this
      ensures Valid() && old(history) <= history && state == old(state).(livenessAt := Some(at))
    {
      Change(LivenessArmed(at), state.(livenessAt := Some(at)));
    }

    /** What a maintenance step may do and report. */
    ghost predicate Maintained(v: View, w: View, report: MaintenanceReport, now: nat) {
      report.nextDeadline == NextDeadline(w) &&
      (now < DURATION_MAX ==> report.nextDeadline > now) &&
      w.commits == v.commits && w.applySpawns == v.applySpawns &&
      (match report.outcome
       case OwnerRevoked => v.owner.Some? && w.owner.None? && w.core.NoCore? && w.live == {}
       case Unchanged => w.owner == v.owner && w.bundle == v.bundle && w.restart == v.restart && w.restart.dueAt.None?
       case UnexpectedExit(Pending(attempts, at)) =>
         w.owner == v.owner && w.bundle == v.bundle && w.restart.dueAt == Some(at) && w.restart.failures == attempts &&
         !w.core.Active?
       case UnexpectedExit(Restarted(attempts, record)) =>
         w.owner == v.owner && w.bundle == v.bundle && w.core == Active(record) && w.restart == NO_RESTART &&
         attempts == SaturatingAdd(v.restart.failures, 1)
       case UnexpectedExit(Degraded(attempts)) =>
         w.owner == v.owner && w.bundle == v.bundle && w.restart.degraded && attempts >= v.limit)
    }

    /** The owner's supervisor has exited. */
    predicate Orphaned(v: View) {
      v.owner.Some? && !Alive(v, v.owner.value.supervisor)
    }

    predicate RestartDue(v: View, now: nat) {
      v.restart.dueAt.Some? && v.restart.dueAt.value <= now
    }

    /** Nothing stands in the way of a restart. */
    predicate MayRestart(v: View) {
      v.owner.Some? && Permits(v, v.owner.value.proof) && v.coreGeneration < U64_MAX
    }

    predicate ReportsRestart(report: MaintenanceReport) {
      report.outcome.UnexpectedExit? && report.outcome.outcome.Restarted?
    }

    /** The owner is `v`'s, and so is the Core unless it has exited. */
    ghost predicate KeepsOwner(v: View, w: View) {
      w.owner == v.owner && w.bundle == v.bundle &&
      (v.core.Active? && v.core.record.process in w.live ==> w.core == v.core)
    }

    /** Every successful step asks to be called again strictly later; it starts a Core only by a
        due restart attempt. A step that has something due revokes the owner exactly when its
        supervisor is gone. */
    method MaintenanceStep(now: nat) returns (r: Result<MaintenanceReport, ErrorKind>)
      requires Valid()
      modifies this
      ensures Valid() && old(history) <= history
      ensures r.Ok? ==> Maintained(old(state), state, r.value, now)
      ensures r.Ok? ==> (r.value.outcome.OwnerRevoked? <==>
                           Orphaned(old(state)) && (RestartDue(old(state), now) || LivenessDue(old(state), now)))
      ensures !Orphaned(old(state)) ==> KeepsOwner(old(state), state)
      ensures reliable ==> r.Ok?
      ensures reliable && !Orphaned(old(state)) && RestartDue(old(state), now) && MayRestart(old(state)) ==>
                ReportsRestart(r.value)
      ensures r.Err? ==> state.commits == old(state).commits && state.applySpawns == old(state).applySpawns
      ensures ExitedUnnoticed(old(state)) && LivenessDue(old(state), now) && r.Ok? && !r.value.outcome.OwnerRevoked? ==>
                state.core.NoCore? && state.restart == InitialRestart(now) && r.value.outcome.UnexpectedExit?
    {
      if state.livenessAt.None? {
        ArmLiveness(now);
      }
      if state.owner.None? {
        ArmLiveness(DeadlineAfter(now, LIVENESS_INTERVAL));
        return Ok(MaintenanceReport(Unchanged, NextDeadline(state)));
      }
      var restartDue := RestartDue(state, now);
      var livenessDue := state.livenessAt.value <= now;
      if restartDue || livenessDue {
        var revoked := RevokeDeadOwner(now);
        if revoked.Err? {
          return Err(revoked.error);
        }
        if revoked.value {
          return Ok(MaintenanceReport(OwnerRevoked, NextDeadline(state)));
        }
      }
      r := MaintainOwned(restartDue, livenessDue, now);
    }

    /** Clears the owner exactly when its supervisor is gone. */
    method RevokeDeadOwner(now: nat) returns (r: Result<bool, ErrorKind>)
      requires Valid() && state.owner.Some?
      modifies this
      ensures Valid() && old(history) <= history
      ensures r.Ok? ==> (r.value <==> Orphaned(old(state)))
      ensures !Orphaned(old(state)) ==> state == old(state)
      ensures reliable ==> r.Ok?
      ensures state.commits == old(state).commits && state.applySpawns == old(state).applySpawns
      ensures r.Ok? && !r.value ==> state == old(state)
      ensures r.Ok? && r.value ==>
                state.owner.None? && state.core.NoCore? && state.live == {} && state.restart == NO_RESTART &&
                state.livenessAt == Some(DeadlineAfter(now, LIVENESS_INTERVAL))
      ensures r.Err? ==> Moved(old(state), state)
    {
      var alive := SupervisorIsAlive(state.owner.value.supervisor);
      if alive.Err? {
        return Err(alive.error);
      }
      if alive.value {
        return Ok(false);
      }
      var cleaned := CleanupOwner(SupervisorGone);
      if cleaned.Err? {
        return Err(cleaned.error);
      }
      ArmLiveness(DeadlineAfter(now, LIVENESS_INTERVAL));
      r := Ok(true);
    }

    /** The part of a step that concerns the Core of a living owner. */
    method MaintainOwned(restartDue: bool, livenessDue: bool, now: nat)
      returns (r: Result<MaintenanceReport, ErrorKind>)
      requires Valid() && state.owner.Some? && state.livenessAt.Some?
      requires restartDue <==> state.restart.dueAt.Some? && state.restart.dueAt.value <= now
      requires livenessDue <==> state.livenessAt.value <= now
      modifies this
      ensures Valid() && old(history) <= history
      ensures r.Ok? ==> Maintained(old(state), state, r.value, now)
      ensures r.Err? ==> state.commits == old(state).commits && state.applySpawns == old(state).applySpawns
      ensures livenessDue && ExitedUnnoticed(old(state)) && r.Ok? ==>
                state.core.NoCore? && state.restart == InitialRestart(now) && r.value.outcome.UnexpectedExit?
      ensures KeepsOwner(old(state), state) && (r.Ok? ==> !r.value.outcome.OwnerRevoked?)
      ensures reliable ==> r.Ok? && (restartDue && MayRestart(old(state)) ==> ReportsRestart(r.value))
    {
      if livenessDue {
        ArmLiveness(DeadlineAfter(now, LIVENESS_INTERVAL));
      }
      if (restartDue || livenessDue) && state.core.CleanupPending? {
        var cleaned := CleanupPendingCore();
        if cleaned.Err? {
          return Err(cleaned.error);
        }
      }
      if restartDue && !state.restart.degraded {
        r := MaintainRestart(now);
      } else {
        r := MaintainLiveness(livenessDue, now);
      }
    }

    method MaintainRestart(now: nat) returns (r: Result<MaintenanceReport, ErrorKind>)
      requires Valid() && state.owner.Some? && state.core.NoCore?
      requires state.restart.dueAt.Some? && state.restart.dueAt.value <= now
      requires state.livenessAt.Some? && (now < DURATION_MAX ==> state.livenessAt.value > now)
      modifies this
      ensures Valid() && old(history) <= history
      ensures r.Ok? ==> Maintained(old(state), state, r.value, now)
      ensures r.Err? ==> state.commits == old(state).commits && state.applySpawns == old(state).applySpawns
      ensures state.owner == old(state).owner && state.bundle == old(state).bundle
      ensures r.Ok? ==> r.value.outcome.UnexpectedExit?
      ensures reliable ==> r.Ok? && (MayRestart(old(state)) ==> ReportsRestart(r.value))
    {
      ghost var attempt := SaturatingAdd(state.restart.failures, 1);
      BackoffIsCappedDoubling(attempt);
      Pow2Fits(0, attempt);
      var outcome := AttemptOwnedCoreRestart(state.owner.value, now);
      if outcome.Err? {
        return Err(outcome.error);
      }
      r := Ok(MaintenanceReport(UnexpectedExit(outcome.value), NextDeadline(state)));
    }

    predicate LivenessDue(v: View, now: nat) {
      v.livenessAt.Some? ==> v.livenessAt.value <= now
    }

    /** The recorded Active Core has exited, and the service may still restart it. */
    predicate ExitedUnnoticed(v: View) {
      !v.restart.degraded && v.core.Active? && v.core.record.process !in v.live
    }

    method MaintainLiveness(livenessDue: bool, now: nat) returns (r: Result<MaintenanceReport, ErrorKind>)
      requires Valid() && state.owner.Some?
      requires state.restart.dueAt.Some? ==> state.restart.dueAt.value > now
      requires state.livenessAt.Some? && (now < DURATION_MAX ==> state.livenessAt.value > now)
      modifies this
      ensures Valid() && old(history) <= history
      ensures r.Ok? ==> Maintained(old(state), state, r.value, now)
      ensures r.Err? ==> state.commits == old(state).commits && state.applySpawns == old(state).applySpawns
      ensures livenessDue && ExitedUnnoticed(old(state)) && r.Ok? ==>
                state.core.NoCore? && state.restart == InitialRestart(now) && r.value.outcome.UnexpectedExit?
      ensures KeepsOwner(old(state), state) && (r.Ok? ==> !r.value.outcome.OwnerRevoked?)
      ensures reliable ==> r.Ok?
    {
      if livenessDue && !state.restart.degraded && state.core.Active? {
        var alive := OwnedProcessIsLive(state.core.record.process);
        if alive.Err? {
          return Err(alive.error);
        }
        if !alive.value {
          var outcome := ForgetExitedCore(now);
          if outcome.Err? {
            return Err(outcome.error);
          }
          return Ok(MaintenanceReport(UnexpectedExit(outcome.value), NextDeadline(state)));
        }
      }
      if state.restart.dueAt.Some? && !state.restart.degraded {
        return Ok(MaintenanceReport(UnexpectedExit(Pending(state.restart.failures, state.restart.dueAt.value)),
                                    NextDeadline(state)));
      }
      r := Ok(MaintenanceReport(Unchanged, NextDeadline(state)));
    }
  }
}
