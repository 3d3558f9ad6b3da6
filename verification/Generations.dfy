/** Durable owner and Core generations (`reserve_owner_generation` and
    `reserve_core_instance_generation` in `src/service.rs`, persisted by
    `src/service/generation_state.rs`).

    Any number of service instances share one state file. A reservation runs under the file
    lock: it reads the file, raises the counters in memory, and replaces the file by a rename
    that is durable only after the directory is synced. */
module Generations {
  import opened Common

  datatype Counters = Counters(owner: nat, core: nat)

  /** The counters after reading the file; on exhaustion the ones already raised are kept. */
  function Raise(memory: Counters, file: Counters, forOwner: bool): Result<Counters, Counters> {
    var owner := Max(memory.owner, file.owner);
    var core := Max(memory.core, file.core);
    if forOwner then
      if owner < U64_MAX then Ok(Counters(owner + 1, core)) else Err(memory)
    else
      if core < U64_MAX then Ok(Counters(owner, core + 1)) else Err(Counters(owner, memory.core))
  }

  /** How far replacing the file got. */
  datatype Persist = NotRenamed | NotSynced | Synced

  /** `visible` is the file's content, `durable` what survives a power loss. */
  datatype World = World(visible: Counters, durable: Counters, instances: map<nat, Counters>,
                         owners: seq<nat>, cores: seq<nat>)

  datatype Action =
    | Start(id: nat)
    | Crash(id: nat)
    | PowerLoss(kept: bool)
    | Reserve(id: nat, forOwner: bool, persist: Persist)

  function Reserved(w: World, id: nat, forOwner: bool, persist: Persist): World
    requires id in w.instances
  {
    match Raise(w.instances[id], w.visible, forOwner)
    case Err(c) => w.(instances := w.instances[id := c])
    case Ok(c) =>
      var raised := w.(instances := w.instances[id := c]);
      match persist
      case NotRenamed => raised
      case NotSynced => raised.(visible := c)
      case Synced =>
        raised.(visible := c, durable := c,
                owners := if forOwner then w.owners + [c.owner] else w.owners,
                cores := if forOwner then w.cores else w.cores + [c.core])
  }

  function Act(w: World, a: Action): World {
    match a
    case Start(id) => w.(instances := w.instances[id := w.visible])
    case Crash(id) => w.(instances := w.instances - {id})
    case PowerLoss(kept) =>
      if kept then w.(durable := w.visible, instances := map[]) else w.(visible := w.durable, instances := map[])
    case Reserve(id, forOwner, persist) => if id in w.instances then Reserved(w, id, forOwner, persist) else w
  }

  function Run(actions: seq<Action>): World {
    if actions == [] then World(Counters(0, 0), Counters(0, 0), map[], [], [])
    else Act(Run(actions[..|actions| - 1]), actions[|actions| - 1])
  }

  ghost predicate Increasing(s: seq<nat>) {
    forall i, j :: 0 <= i < j < |s| ==> s[i] < s[j]
  }

  ghost predicate Bounded(s: seq<nat>, top: nat) {
    forall i :: 0 <= i < |s| ==> s[i] <= top
  }

  /** Whatever was issued is durable, and the file never runs behind what is durable. */
  ghost predicate Safe(w: World) {
    w.durable.owner <= w.visible.owner && w.durable.core <= w.visible.core &&
    Increasing(w.owners) && Increasing(w.cores) &&
    Bounded(w.owners, w.durable.owner) && Bounded(w.cores, w.durable.core)
  }

  lemma SafeStep(w: World, a: Action)
    requires Safe(w)
    ensures Safe(Act(w, a))
  {
  }

  /** Main result. Over every interleaving of any number of instances, with crashes, power
      losses and failures before or after the rename, issued owner generations strictly
      increase, and so do issued Core instance generations. */
  lemma {:induction false} IssuedGenerationsIncrease(actions: seq<Action>)
    ensures Safe(Run(actions))
    decreases |actions|
  {
    if actions != [] {
      IssuedGenerationsIncrease(actions[..|actions| - 1]);
      SafeStep(Run(actions[..|actions| - 1]), actions[|actions| - 1]);
    }
  }

  /** What is issued later in a run exceeds everything issued before, and is never withdrawn. */
  lemma {:induction false} IssuedIsNeverReissued(actions: seq<Action>, more: seq<Action>)
    ensures Run(actions).owners <= Run(actions + more).owners && Run(actions).cores <= Run(actions + more).cores
    decreases |more|
  {
    if more == [] {
      assert actions + more == actions;
    } else {
      var all := actions + more;
      assert all[..|all| - 1] == actions + more[..|more| - 1];
      IssuedIsNeverReissued(actions, more[..|more| - 1]);
    }
  }
}
