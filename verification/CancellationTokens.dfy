/** The calls of `CancellationToken` as sequences of atomic steps, between which other threads
    may take any steps of their own. */
module CancellationTokens {
  import opened Common
  import opened CancellationProtocol

  function PhaseOf(s: State, f: Interrupt): Option<Phase> {
    if f in s.phase then Some(s.phase[f]) else None
  }

  /** A step of another thread, seen from the call registering or dropping `own` or, if there is
      none, from the cancelling call. */
  predicate Foreign(a: Action, own: Option<Interrupt>) {
    match a
    case Swap => true
    case Take => own.Some?
    case RunNext(_) => own.Some?
    case _ => own != Some(a.f)
  }

  class CancellationToken {
    var state: State
    ghost var history: seq<Entry>

    ghost predicate Valid()
      reads this
    {
      IsRun(history) && state == Last(history) && Ordered(state)
    }

    constructor ()
      ensures Valid() && state == INITIAL && history == []
    {
      state, history := INITIAL, [];
    }

    method Do(a: Action)
      requires Valid() && Enabled(state, a)
      modifies this
      ensures Valid() && state == Next(old(state), a) && history == old(history) + [Entry(a, state)]
    {
      OrderedStep(state, a);
      RunGrows(history, a);
      state := Next(state, a);
      history := history + [Entry(a, state)];
    }

    /** Any number of steps by other threads. They leave this call's own phase alone; if it is the
        cancelling call, also the progress of the cancellation. */
    method Interfere(own: Option<Interrupt>)
      requires Valid() && (own.None? ==> state.cancelled)
      modifies this
      ensures Valid() && old(history) <= history
      ensures own.Some? ==> PhaseOf(state, own.value) == old(PhaseOf(state, own.value))
      ensures own.None? ==> state.cancelled && state.canceller == old(state).canceller
    {
      var n: nat := *;
      while n > 0
        invariant Valid() && old(history) <= history
        invariant own.Some? ==> PhaseOf(state, own.value) == old(PhaseOf(state, own.value))
        invariant own.None? ==> state.cancelled && state.canceller == old(state).canceller
      {
        var a: Action := *;
        if Foreign(a, own) && Enabled(state, a) {
          Do(a);
        }
        n := n - 1;
      }
    }

    /** Waits for the mutex: its holder, if any, goes on until it releases it. */
    method Acquire(own: Option<Interrupt>)
      requires Valid() && (own.None? ==> state.cancelled)
      requires own.Some? && own.value in state.phase ==> !HoldsLock(state.phase[own.value])
      modifies this
      ensures Valid() && old(history) <= history && state.lock.None?
      ensures own.Some? ==> PhaseOf(state, own.value) == old(PhaseOf(state, own.value))
      ensures own.None? ==> state.cancelled && state.canceller == old(state).canceller
    {
      Interfere(own);
      if state.lock.Some? {
        var g := state.lock.value;
        if state.phase[g].Locked? {
          Do(Check(g));
        }
        if state.lock.Some? {
          Do(Insert(g));
        }
      }
    }

    /** `cancel`: the first call returns after it has run everything it took. */
    method Cancel() returns (first: bool)
      requires Valid()
      modifies this
      ensures Valid() && old(history) <= history && state.cancelled
      ensures first <==> !old(state).cancelled
      ensures first ==> state.canceller == Running(map[])
    {
      first := !state.cancelled;
      Do(Swap);
      if !first {
        return;
      }
      Acquire(None);
      Do(Take);
      while state.canceller.left != map[]
        invariant Valid() && old(history) <= history && state.cancelled && state.canceller.Running?
        decreases |state.canceller.left|
      {
        Interfere(None);
        var left := state.canceller.left;
        var id := LeastKey(left);
        Do(RunNext(id));
        assert state.canceller.left == left - {id};
        assert |left - {id}| == |left| - 1 by {
          assert (left - {id}).Keys == left.Keys - {id};
        }
      }
    }

    /** `register_interrupt`: either the interrupt is registered under a fresh key, or it has
        already run in this call. */
    method RegisterInterrupt(f: Interrupt) returns (id: Option<nat>)
      requires Valid() && f !in state.phase
      modifies this
      ensures Valid() && old(history) <= history
      ensures PhaseOf(state, f) == Some(if id.Some? then Registered(id.value) else Returned)
    {
      Acquire(Some(f));
      Do(Lock(f));
      Interfere(Some(f));
      Do(Check(f));
      if state.phase[f].Refused? {
        Interfere(Some(f));
        Do(RunOwn(f));
        return None;
      }
      Interfere(Some(f));
      id := Some(NextId(state.registrations));
      Do(Insert(f));
    }

    /** Dropping a registration. */
    method DropRegistration(f: Interrupt)
      requires Valid() && f in state.phase && state.phase[f].Registered?
      modifies this
      ensures Valid() && old(history) <= history
      ensures PhaseOf(state, f) == Some(Dropped(old(state).phase[f].id, !state.canceller.Running?))
    {
      Acquire(Some(f));
      Do(Drop(f));
    }
  }

  method LeastKey(m: map<nat, Interrupt>) returns (id: nat)
    requires m != map[]
    ensures id in m && forall j :: j in m ==> id <= j
  {
    var rest := m.Keys;
    assert m.Keys == {} ==> m == map[];
    var start :| start in m.Keys;
    id := start;
    while rest != {}
      invariant rest <= m.Keys && id in m && forall j :: j in m && j !in rest ==> id <= j
      decreases rest
    {
      var j :| j in rest;
      if j < id {
        id := j;
      }
      rest := rest - {j};
    }
  }
}
