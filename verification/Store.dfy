/** `PersistenceStore` of `src/persistence.rs`. Operations are serialised by their caller; every
    file operation may fail, which ends the call, and the ghost field `history` records the
    ones that happened. */
module Store {
  import opened Common
  import opened StoreProtocol

  const ENTRY_LIMIT: nat := 4096
  const REMOVAL_LIMIT: nat := 256
  const REFERENCE_LIMIT: nat := 1024

  datatype Error = Io | AlreadyExists | InvalidData

  // ---------------------------------------------------------------------------
  // collect_json_object_references
  // ---------------------------------------------------------------------------

  function Size(j: Json): (n: nat)
    ensures n >= 1
  {
    match j
    case Nested(children) => 1 + SizeAll(children)
    case _ => 1
  }

  function SizeAll(js: seq<Json>): nat {
    if js == [] then 0 else SizeAll(js[..|js| - 1]) + Size(js[|js| - 1])
  }

  lemma {:induction false} SizeConcat(a: seq<Json>, b: seq<Json>)
    ensures SizeAll(a + b) == SizeAll(a) + SizeAll(b)
    decreases |b|
  {
    if b == [] {
      assert a + b == a;
    } else {
      assert (a + b)[..|a + b| - 1] == a + b[..|b| - 1];
      SizeConcat(a, b[..|b| - 1]);
    }
  }

  ghost predicate RefersTo(js: seq<Json>, o: Content) {
    exists i :: 0 <= i < |js| && o in References(js[i])
  }

  lemma RefersSplit(js: seq<Json>, o: Content)
    requires js != []
    ensures RefersTo(js, o) <==> RefersTo(js[..|js| - 1], o) || o in References(js[|js| - 1])
  {
    if RefersTo(js[..|js| - 1], o) {
      var i :| 0 <= i < |js| - 1 && o in References(js[..|js| - 1][i]);
      assert js[i] == js[..|js| - 1][i];
    }
    if RefersTo(js, o) {
      var i :| 0 <= i < |js| && o in References(js[i]);
      assert i < |js| - 1 ==> js[..|js| - 1][i] == js[i];
    }
  }

  lemma RefersConcat(a: seq<Json>, b: seq<Json>, o: Content)
    ensures RefersTo(a + b, o) <==> RefersTo(a, o) || RefersTo(b, o)
  {
    if RefersTo(a, o) {
      var i :| 0 <= i < |a| && o in References(a[i]);
      assert (a + b)[i] == a[i];
    }
    if RefersTo(b, o) {
      var i :| 0 <= i < |b| && o in References(b[i]);
      assert (a + b)[|a| + i] == b[i];
    }
    if RefersTo(a + b, o) {
      var i :| 0 <= i < |a + b| && o in References((a + b)[i]);
      assert if i < |a| then (a + b)[i] == a[i] else (a + b)[i] == b[i - |a|];
    }
  }

  lemma NestedRefers(children: seq<Json>, o: Content)
    ensures o in References(Nested(children)) <==> RefersTo(children, o)
  {
  }

  /** The work-stack loop finds exactly the references of the document, or gives up when there
      are too many. */
  method CollectReferences(c: Content, retained: set<Content>) returns (r: Result<set<Content>, Error>)
    ensures r.Ok? ==> r.value == retained + Referenced(c)
    ensures r.Err? ==> c.Malformed? || |retained + Referenced(c)| > REFERENCE_LIMIT
    ensures c.Malformed? ==> r.Err?
  {
    if c.Other? {
      return Ok(retained);
    }
    if c.Malformed? {
      return Err(InvalidData);
    }
    var pending := [c.json];
    var found := retained;
    while pending != []
      invariant retained <= found <= retained + Referenced(c)
      invariant forall o :: o in Referenced(c) <==> (o in found && o in Referenced(c)) || RefersTo(pending, o)
      decreases SizeAll(pending)
    {
      var top := pending[|pending| - 1];
      var rest := pending[..|pending| - 1];
      forall o ensures RefersTo(pending, o) <==> RefersTo(rest, o) || o in References(top) {
        RefersSplit(pending, o);
      }
      assert SizeAll(pending) == SizeAll(rest) + Size(top);
      match top
      case Nested(children) =>
        assert Size(top) == 1 + SizeAll(children);
        forall o ensures RefersTo(rest + children, o) <==> RefersTo(rest, o) || o in References(top) {
          RefersConcat(rest, children, o);
          NestedRefers(children, o);
        }
        SizeConcat(rest, children);
        pending := rest + children;
      case Reference(o) =>
        found := found + {o};
        pending := rest;
        if |found| > REFERENCE_LIMIT {
          MoreElements(found, retained + Referenced(c));
          return Err(InvalidData);
        }
      case Scalar =>
        pending := rest;
    }
    r := Ok(found);
  }

  // ---------------------------------------------------------------------------
  // collect_prune_candidates
  // ---------------------------------------------------------------------------

  datatype Scan<T(==)> = Scan(candidates: set<T>, scanned: nat, more: bool)

  /** Reads one directory in any order. `others` are entries that are not digest-named regular
      files; `earlier` candidates already count against the removal limit. */
  method ScanDirectory<T(==)>(files: set<T>, others: nat, retained: set<T>, scanned: nat, more: bool, earlier: nat)
    returns (r: Scan<T>)
    requires scanned <= ENTRY_LIMIT && earlier <= REMOVAL_LIMIT
    ensures r.candidates <= files - retained && earlier + |r.candidates| <= REMOVAL_LIMIT && r.scanned <= ENTRY_LIMIT
    ensures more ==> r.more
    ensures !r.more ==> r.candidates == files - retained
    ensures r.more && !more && earlier == 0 && r.candidates == {} ==> r.scanned == ENTRY_LIMIT
    ensures earlier == 0 && r.candidates == {} ==> r.scanned <= scanned + |files * retained| + others
  {
    var todo, left: nat := files, others;
    r := Scan({}, scanned, more);
    while todo != {} || left > 0
      invariant todo <= files && left <= others && scanned <= r.scanned <= ENTRY_LIMIT
      invariant r.candidates <= files - retained && r.candidates !! todo && earlier + |r.candidates| <= REMOVAL_LIMIT
      invariant more ==> r.more
      invariant !r.more ==> forall x :: x in files && x !in retained ==> x in todo || x in r.candidates
      invariant r.more && !more ==> earlier + |r.candidates| == REMOVAL_LIMIT
      invariant earlier == 0 && r.candidates == {} ==>
                  files - todo <= retained && r.scanned == scanned + |files - todo| + (others - left)
      decreases |todo| + left
    {
      if r.scanned == ENTRY_LIMIT {
        r := r.(more := true);
        break;
      }
      r := r.(scanned := r.scanned + 1);
      var other: bool := *;
      if left > 0 && (other || todo == {}) {
        left := left - 1;
      } else {
        var x :| x in todo;
        assert files - (todo - {x}) == (files - todo) + {x};
        todo := todo - {x};
        if x !in retained {
          if earlier + |r.candidates| == REMOVAL_LIMIT {
            r := r.(more := true);
          } else {
            r := r.(candidates := r.candidates + {x});
          }
        }
      }
    }
    if earlier == 0 && r.candidates == {} {
      MoreElements(files - todo, files * retained);
    }
  }

  // ---------------------------------------------------------------------------
  // The store
  // ---------------------------------------------------------------------------

  datatype PruneResult = PruneResult(scanned: nat, removedObjects: nat, removedTransactions: nat, more: bool)

  /** What one pass over the two directories decided. */
  datatype Plan = Plan(objects: set<Content>, transactions: set<Bundle>, scanned: nat, more: bool)

  ghost function RetainedObjects(d: Disk): set<Content> {
    set o | o in d.objects && RetainedObject(d, o)
  }

  /** The number of files that pruning must leave. */
  ghost function Unremovable(d: Disk): nat {
    |RetainedObjects(d)| + |d.transactions.Keys * Named(d)|
  }

  ghost predicate SameExceptObjects(d: Disk, e: Disk) {
    e.manifest == d.manifest && e.prepared == d.prepared && e.transactions == d.transactions
  }

  ghost predicate SameExceptTransactions(d: Disk, e: Disk) {
    e.manifest == d.manifest && e.prepared == d.prepared && e.objects == d.objects
  }

  lemma SameNames(d: Disk, e: Disk)
    requires e.manifest == d.manifest && e.prepared == d.prepared
    ensures Named(e) == Named(d)
  {
  }

  lemma SameRetention(d: Disk, e: Disk, o: Content)
    requires e.manifest == d.manifest && e.prepared == d.prepared
    ensures RetainedObject(e, o) <==> RetainedObject(d, o)
  {
  }

  /** `after` is `before` without the candidates already dealt with. */
  ghost predicate Without<T>(before: map<T, T>, after: map<T, T>, candidates: set<T>, todo: set<T>) {
    after == before - (candidates - todo)
  }

  /** Nothing but some of `gone` is missing, and nothing is changed. */
  ghost predicate OnlyGone<T(!new)>(before: map<T, T>, after: map<T, T>, gone: set<T>) {
    after.Keys <= before.Keys && before.Keys - gone <= after.Keys && forall x :: x in after ==> after[x] == before[x]
  }

  lemma WithoutIsOnlyGone<T(!new)>(before: map<T, T>, after: map<T, T>, candidates: set<T>, todo: set<T>)
    requires Without(before, after, candidates, todo)
    ensures OnlyGone(before, after, candidates)
  {
  }

  lemma OneLess<T>(before: map<T, T>, now: map<T, T>, candidates: set<T>, todo: set<T>, x: T)
    requires x in todo && todo <= candidates && Without(before, now, candidates, todo)
    ensures Without(before, now - {x}, candidates, todo - {x})
  {
    assert candidates - (todo - {x}) == (candidates - todo) + {x};
  }

  lemma NoneLeft<T>(before: map<T, T>, now: map<T, T>, candidates: set<T>)
    ensures Without(before, before, candidates, candidates)
    ensures Without(before, now, candidates, {}) ==> now == before - candidates
  {
    assert candidates - {} == candidates;
    assert candidates - candidates == {};
  }

  /** Everything the named transactions keep. */
  ghost function AllKept(d: Disk): set<Content> {
    set b, o | b in Named(d) && o in Kept(b) :: o
  }

  /** The supervisor states can be searched for references, and there are not too many. */
  ghost predicate Searchable(d: Disk) {
    (forall b :: b in Named(d) ==> !b.state.Malformed?) && |AllKept(d)| <= REFERENCE_LIMIT
  }

  lemma KeptIsIncluded(d: Disk, b: Bundle)
    requires b in Named(d)
    ensures Kept(b) <= AllKept(d)
  {
  }

  class PersistenceStore {
    /** Whether no file operation fails. */
    const reliable: bool
    var disk: Disk
    /** Entries of the two directories that are not digest-named regular files. */
    var otherObjects: nat
    var otherTransactions: nat
    ghost const start: Disk
    ghost var history: seq<Entry>

    /** The files are the outcome of the recorded operations, and complete. */
    ghost predicate Valid()
      reads this
    {
      IsRun(start, history) && disk == Last(start, history) && Safe(disk)
    }

    constructor (disk: Disk, otherObjects: nat, otherTransactions: nat, reliable: bool)
      requires Safe(disk)
      ensures Valid() && this.disk == disk && start == disk && history == [] && this.reliable == reliable
    {
      this.reliable := reliable;
      this.disk, this.otherObjects, this.otherTransactions := disk, otherObjects, otherTransactions;
      start, history := disk, [];
    }

    /** One atomic file operation. */
    method Do(ghost op: Op, e: Disk)
      requires Valid() && Step(disk, op, e)
      modifies this`disk, this`history
      ensures Valid() && disk == e && history == old(history) + [Entry(op, e)]
    {
      SafeStep(disk, op, e);
      RunGrows(start, history, op, e);
      disk := e;
      history := history + [Entry(op, e)];
    }

    method PutObject(o: Content) returns (r: Result<Content, Error>)
      requires Valid()
      modifies this`disk, this`history
      ensures Valid() && old(history) <= history
      ensures r.Ok? ==> r.value == o && Holds(disk, o)
      ensures disk == old(disk) || disk == old(disk).(objects := old(disk).objects[o := o])
      ensures reliable ==> r.Ok?
    {
      var fails: bool, unsynced: bool := *, *;
      if Holds(disk, o) {
        return Ok(o);
      }
      if fails && !reliable {
        return Err(Io);
      }
      Do(Op.PutObject(o), disk.(objects := disk.objects[o := o]));
      r := if unsynced && !reliable then Err(Io) else Ok(o);
    }

    /** `verify_bundle_objects`. */
    predicate VerifiesObjects(b: Bundle)
      reads this`disk
    {
      Holds(disk, b.state) && Holds(disk, b.snapshot) &&
      Holds(disk, b.rules) && Holds(disk, b.effective)
    }

    method Prepare(b: Bundle) returns (r: Result<Prepared, Error>)
      requires Valid()
      modifies this`disk, this`history
      ensures Valid() && old(history) <= history && disk.manifest == old(disk).manifest
      ensures disk.objects == old(disk).objects
      ensures disk.transactions == old(disk).transactions || disk.transactions == old(disk).transactions[b := b]
      ensures old(disk).prepared.Some? ==> r == Err(AlreadyExists) && disk == old(disk)
      ensures old(disk).prepared.None? && !old(VerifiesObjects(b)) ==> r == Err(InvalidData) && disk == old(disk)
      ensures reliable && old(disk).prepared.None? && old(VerifiesObjects(b)) ==> r.Ok?
      ensures r.Ok? ==> disk.prepared == Some(r.value) && Present(disk, b) && r.value.candidate == b
      ensures r.Ok? ==> r.value.previous == if disk.manifest.Some? then Some(disk.manifest.value.current) else None
      ensures disk.prepared in {old(disk).prepared, Some(Prepared(b, Current(disk)))}
    {
      if disk.prepared.Some? {
        return Err(AlreadyExists);
      }
      if !VerifiesObjects(b) {
        return Err(InvalidData);
      }
      var fails: bool := *;
      if fails && !reliable {
        return Err(Io);
      }
      if !(b in disk.transactions && disk.transactions[b] == b) {
        Do(PutTransaction(b), disk.(transactions := disk.transactions[b := b]));
      }
      fails := *;
      if fails && !reliable {
        return Err(Io);
      }
      var p := Prepared(b, Current(disk));
      Do(WriteJournal(p), disk.(prepared := Some(p)));
      fails := *;
      r := if fails && !reliable then Err(Io) else Ok(p);
    }

    /** A journalled transaction that is not stale commits unless a file operation fails: what the
        journal names is always complete. */
    method CommitPrepared(p: Prepared) returns (r: Result<(), Error>)
      requires Valid()
      modifies this`disk, this`history
      ensures Valid() && old(history) <= history
      ensures r.Ok? ==> old(disk).prepared == Some(p) && Current(old(disk)) == p.previous
      ensures r.Ok? ==> disk == old(disk).(manifest := Some(Manifest(p.candidate, p.previous)))
      ensures r.Err? ==> disk == old(disk) || (old(disk).prepared == Some(p) && Current(old(disk)) == p.previous &&
                                               disk == old(disk).(manifest := Some(Manifest(p.candidate, p.previous))))
      ensures reliable ==> (r.Ok? <==> old(disk).prepared == Some(p) && Current(old(disk)) == p.previous)
    {
      var fails: bool := *;
      if fails && !reliable {
        return Err(Io);
      }
      if disk.prepared != Some(p) || Current(disk) != p.previous {
        return Err(InvalidData);
      }
      assert p.candidate in Named(disk);
      var loads := p.candidate in disk.transactions && disk.transactions[p.candidate] == p.candidate;
      if !loads || !VerifiesObjects(p.candidate) {
        return Err(InvalidData);
      }
      Do(WriteManifest, disk.(manifest := Some(Manifest(p.candidate, p.previous))));
      fails := *;
      r := if fails && !reliable then Err(Io) else Ok(());
    }

    method ClearPrepared(p: Prepared) returns (r: Result<(), Error>)
      requires Valid()
      modifies this`disk, this`history
      ensures Valid() && old(history) <= history
      ensures r.Ok? ==> old(disk).prepared == Some(p) && disk == old(disk).(prepared := None)
      ensures r.Err? ==> disk == old(disk) || (old(disk).prepared == Some(p) && disk == old(disk).(prepared := None))
      ensures reliable ==> (r.Ok? <==> old(disk).prepared == Some(p))
    {
      var fails: bool := *;
      if fails && !reliable {
        return Err(Io);
      }
      if disk.prepared != Some(p) {
        return Err(InvalidData);
      }
      Do(RemoveJournal, disk.(prepared := None));
      fails := *;
      r := if fails && !reliable then Err(Io) else Ok(());
    }

    /** The objects retained by the named transactions. */
    method RetainedContent() returns (r: Result<set<Content>, Error>)
      requires Valid()
      ensures r.Ok? ==> forall o :: o in r.value <==> RetainedObject(disk, o)
      ensures r.Ok? ==> forall o :: o in r.value <==> Needed(disk, o)
      ensures reliable && Searchable(disk) ==> r.Ok?
    {
      var todo := Named(disk);
      var retained: set<Content> := {};
      while todo != {}
        invariant todo <= Named(disk) && retained <= AllKept(disk)
        invariant forall o :: o in retained <==> exists b :: b in Named(disk) && b !in todo && o in Kept(b)
        decreases todo
      {
        var b :| b in todo;
        var fails: bool := *;
        if fails && !reliable {
          return Err(Io);
        }
        KeptIsIncluded(disk, b);
        var next := CollectReferences(b.state, retained + FourObjects(b));
        if next.Err? {
          MoreElements(retained + FourObjects(b) + Referenced(b.state), AllKept(disk));
          return Err(next.error);
        }
        ghost var before := retained;
        retained := next.value;
        assert forall o :: o in retained <==> o in before || o in Kept(b);
        todo := todo - {b};
      }
      forall o ensures Needed(disk, o) <==> RetainedObject(disk, o) {
        NeededIsRetained(disk, o);
      }
      r := Ok(retained);
    }

    /** Removes `candidates`, or fails part-way. */
    method RemoveObjects(candidates: set<Content>) returns (r: Result<nat, Error>)
      requires Valid() && candidates <= disk.objects.Keys && forall o :: o in candidates ==> !RetainedObject(disk, o)
      modifies this`disk, this`history
      ensures Valid() && old(history) <= history
      ensures SameExceptObjects(old(disk), disk) && OnlyGone(old(disk).objects, disk.objects, candidates)
      ensures r.Ok? ==> r.value == |candidates| && disk.objects == old(disk).objects - candidates
      ensures reliable ==> r.Ok?
    {
      var todo := candidates;
      NoneLeft(disk.objects, disk.objects, candidates);
      while todo != {}
        invariant Valid() && old(history) <= history && todo <= candidates
        invariant SameExceptObjects(old(disk), disk)
        invariant Without(old(disk).objects, disk.objects, candidates, todo)
        decreases todo
      {
        var o :| o in todo;
        var fails: bool := *;
        WithoutIsOnlyGone(old(disk).objects, disk.objects, candidates, todo);
        if fails && !reliable {
          return Err(Io);
        }
        SameRetention(old(disk), disk, o);
        ghost var before := disk.objects;
        Do(RemoveObject(o), disk.(objects := disk.objects - {o}));
        OneLess(old(disk).objects, before, candidates, todo, o);
        todo := todo - {o};
      }
      NoneLeft(old(disk).objects, disk.objects, candidates);
      WithoutIsOnlyGone(old(disk).objects, disk.objects, candidates, todo);
      r := Ok(|candidates|);
    }

    method RemoveTransactions(candidates: set<Bundle>) returns (r: Result<nat, Error>)
      requires Valid() && candidates <= disk.transactions.Keys && candidates !! Named(disk)
      modifies this`disk, this`history
      ensures Valid() && old(history) <= history
      ensures SameExceptTransactions(old(disk), disk) && OnlyGone(old(disk).transactions, disk.transactions, candidates)
      ensures r.Ok? ==> r.value == |candidates| && disk.transactions == old(disk).transactions - candidates
      ensures reliable ==> r.Ok?
    {
      var todo := candidates;
      NoneLeft(disk.transactions, disk.transactions, candidates);
      while todo != {}
        invariant Valid() && old(history) <= history && todo <= candidates
        invariant SameExceptTransactions(old(disk), disk)
        invariant Without(old(disk).transactions, disk.transactions, candidates, todo)
        decreases todo
      {
        var b :| b in todo;
        var fails: bool := *;
        WithoutIsOnlyGone(old(disk).transactions, disk.transactions, candidates, todo);
        if fails && !reliable {
          return Err(Io);
        }
        SameNames(old(disk), disk);
        ghost var before := disk.transactions;
        Do(RemoveTransaction(b), disk.(transactions := disk.transactions - {b}));
        OneLess(old(disk).transactions, before, candidates, todo, b);
        todo := todo - {b};
      }
      NoneLeft(old(disk).transactions, disk.transactions, candidates);
      WithoutIsOnlyGone(old(disk).transactions, disk.transactions, candidates, todo);
      r := Ok(|candidates|);
    }

    /** Decides what to remove: only files nothing retains. With fewer than 4096 entries that
        must stay, it finds something whenever there is more. */
    method FindUnreachable() returns (r: Result<Plan, Error>)
      requires Valid()
      ensures r.Ok? ==> r.value.objects <= disk.objects.Keys - RetainedObjects(disk)
      ensures r.Ok? ==> r.value.transactions <= disk.transactions.Keys - Named(disk)
      ensures r.Ok? ==> |r.value.objects| + |r.value.transactions| <= REMOVAL_LIMIT
      ensures r.Ok? && !r.value.more ==>
                r.value.objects == disk.objects.Keys - RetainedObjects(disk) &&
                r.value.transactions == disk.transactions.Keys - Named(disk)
      ensures r.Ok? && r.value.more && Unremovable(disk) + otherObjects + otherTransactions < ENTRY_LIMIT ==>
                |r.value.objects| + |r.value.transactions| >= 1
      ensures reliable && Searchable(disk) ==> r.Ok?
    {
      var content := RetainedContent();
      if content.Err? {
        return Err(content.error);
      }
      assert disk.objects.Keys * content.value == RetainedObjects(disk);
      assert disk.objects.Keys - content.value == disk.objects.Keys - RetainedObjects(disk);
      var objects := ScanDirectory(disk.objects.Keys, otherObjects, content.value, 0, false, 0);
      var transactions := ScanDirectory(disk.transactions.Keys, otherTransactions, Named(disk), objects.scanned,
                                        objects.more, |objects.candidates|);
      r := Ok(Plan(objects.candidates, transactions.candidates, transactions.scanned, transactions.more));
    }

    /** Removes what was planned, or some of it on failure. */
    method RemovePlanned(plan: Plan) returns (r: Result<(nat, nat), Error>)
      requires Valid() && plan.objects <= disk.objects.Keys - RetainedObjects(disk)
      requires plan.transactions <= disk.transactions.Keys - Named(disk)
      modifies this`disk, this`history
      ensures Valid() && old(history) <= history
      ensures disk.manifest == old(disk).manifest && disk.prepared == old(disk).prepared
      ensures OnlyGone(old(disk).objects, disk.objects, plan.objects)
      ensures OnlyGone(old(disk).transactions, disk.transactions, plan.transactions)
      ensures r.Ok? ==> r.value == (|plan.objects|, |plan.transactions|)
      ensures r.Ok? ==> disk.objects == old(disk).objects - plan.objects
      ensures r.Ok? ==> disk.transactions == old(disk).transactions - plan.transactions
      ensures reliable ==> r.Ok?
    {
      var removedObjects := RemoveObjects(plan.objects);
      if removedObjects.Err? {
        return Err(removedObjects.error);
      }
      SameNames(old(disk), disk);
      var removedTransactions := RemoveTransactions(plan.transactions);
      if removedTransactions.Err? {
        return Err(removedTransactions.error);
      }
      var unsynced: bool := *;
      r := if unsynced && !reliable then Err(Io) else Ok((removedObjects.value, removedTransactions.value));
    }

    /** The call itself, in terms of what is retained. */
    method PruneOnce() returns (r: Result<PruneResult, Error>)
      requires Valid()
      modifies this`disk, this`history
      ensures Valid() && old(history) <= history
      ensures disk.manifest == old(disk).manifest && disk.prepared == old(disk).prepared
      ensures OnlyGone(old(disk).objects, disk.objects, old(disk).objects.Keys - RetainedObjects(old(disk)))
      ensures OnlyGone(old(disk).transactions, disk.transactions, old(disk).transactions.Keys - Named(disk))
      ensures RetainedObjects(old(disk)) <= disk.objects.Keys
      ensures r.Ok? && !r.value.more ==>
                disk.objects.Keys == RetainedObjects(old(disk)) && disk.transactions.Keys <= Named(disk)
      ensures r.Ok? && r.value.more && Unremovable(old(disk)) + otherObjects + otherTransactions < ENTRY_LIMIT ==>
                r.value.removedObjects + r.value.removedTransactions >= 1
      ensures r.Ok? ==> |disk.objects| + r.value.removedObjects == |old(disk).objects|
      ensures r.Ok? ==> |disk.transactions| + r.value.removedTransactions == |old(disk).transactions|
      ensures reliable && Searchable(old(disk)) ==> r.Ok?
    {
      var found := FindUnreachable();
      if found.Err? {
        return Err(found.error);
      }
      var plan := found.value;
      ghost var kept, named := RetainedObjects(disk), Named(disk);
      assert kept <= disk.objects.Keys;
      var removed := RemovePlanned(plan);
      PlanRemoved(old(disk), disk, plan, kept, named, removed.Ok?);
      if removed.Err? {
        return Err(removed.error);
      }
      r := Ok(PruneResult(plan.scanned, removed.value.0, removed.value.1, plan.more));
    }

    /** Removes only files nothing retains, also when it fails half-way. If it reports no more
        work, only retained files are left; if it reports more, it has removed some file,
        provided fewer than 4096 entries must stay. */
    method PruneUnreachable() returns (r: Result<PruneResult, Error>)
      requires Valid()
      modifies this`disk, this`history
      ensures Valid() && old(history) <= history
      ensures disk.manifest == old(disk).manifest && disk.prepared == old(disk).prepared
      ensures KeepsNeeded(old(disk), disk) && disk.transactions.Keys <= old(disk).transactions.Keys
      ensures RetainedObjects(old(disk)) <= disk.objects.Keys <= old(disk).objects.Keys
      ensures r.Ok? && !r.value.more ==> OnlyNeeded(disk)
      ensures r.Ok? && r.value.more && Unremovable(old(disk)) + otherObjects + otherTransactions < ENTRY_LIMIT ==>
                r.value.removedObjects + r.value.removedTransactions >= 1
      ensures r.Ok? ==> |disk.objects| + r.value.removedObjects == |old(disk).objects|
      ensures r.Ok? ==> |disk.transactions| + r.value.removedTransactions == |old(disk).transactions|
      ensures reliable && Searchable(old(disk)) ==> r.Ok?
    {
      r := PruneOnce();
      PrunedOnFiles(old(disk), disk);
    }

    /** Calling again while more is reported, in terms of what is retained. */
    method PruneLoop() returns (r: Result<nat, Error>)
      requires Valid() && Unremovable(disk) + otherObjects + otherTransactions < ENTRY_LIMIT
      modifies this`disk, this`history
      ensures Valid() && old(history) <= history
      ensures disk.manifest == old(disk).manifest && disk.prepared == old(disk).prepared
      ensures RetainedObjects(old(disk)) <= disk.objects.Keys
      ensures r.Ok? ==> disk.objects.Keys == RetainedObjects(old(disk)) && disk.transactions.Keys <= Named(disk)
      ensures r.Ok? ==> Files(disk) + r.value == Files(old(disk))
      ensures reliable && Searchable(old(disk)) ==> r.Ok?
    {
      ghost var first, kept := disk, RetainedObjects(disk);
      var removed: nat := 0;
      var more := true;
      PrunedMore(first, first, first, kept);
      while more
        invariant Valid() && old(history) <= history && PrunedTo(first, disk, kept)
        invariant Files(disk) + removed == Files(first)
        invariant !more ==> disk.objects.Keys == kept && disk.transactions.Keys <= Named(disk)
        decreases more, Files(disk)
      {
        StillFew(first, disk, kept);
        ghost var before := disk;
        var result := PruneOnce();
        PrunedMore(first, before, disk, kept);
        if result.Err? {
          return Err(result.error);
        }
        removed := removed + result.value.removedObjects + result.value.removedTransactions;
        more := result.value.more;
      }
      r := Ok(removed);
    }

    /** With fewer than 4096 entries that must stay, calling again while more is reported ends, and
        then exactly what the four named transactions need is left. */
    method PruneRepeatedly() returns (r: Result<nat, Error>)
      requires Valid() && Unremovable(disk) + otherObjects + otherTransactions < ENTRY_LIMIT
      modifies this`disk, this`history
      ensures Valid() && old(history) <= history
      ensures disk.manifest == old(disk).manifest && disk.prepared == old(disk).prepared
      ensures Complete(disk) && forall o :: o in old(disk).objects && Needed(old(disk), o) ==> o in disk.objects
      ensures r.Ok? ==> OnlyNeeded(disk) && Files(disk) + r.value == Files(old(disk))
      ensures reliable && Searchable(old(disk)) ==> r.Ok?
    {
      r := PruneLoop();
      LeftOnFiles(old(disk), disk);
    }
  }

  function Files(d: Disk): nat {
    |d.objects| + |d.transactions|
  }

  /** `e` is `d` without some files that nothing retains; `kept` are the retained objects. */
  ghost predicate PrunedTo(d: Disk, e: Disk, kept: set<Content>) {
    && e.manifest == d.manifest && e.prepared == d.prepared
    && e.transactions.Keys <= d.transactions.Keys
    && RetainedObjects(d) == RetainedObjects(e) == kept <= e.objects.Keys
  }

  lemma PrunedMore(d: Disk, e: Disk, f: Disk, kept: set<Content>)
    requires (d == e && RetainedObjects(d) == kept) || PrunedTo(d, e, kept)
    requires f.manifest == e.manifest && f.prepared == e.prepared
    requires f.transactions.Keys <= e.transactions.Keys && RetainedObjects(e) <= f.objects.Keys <= e.objects.Keys
    ensures PrunedTo(d, f, kept)
  {
    SameRetained(e, f);
  }

  lemma StillFew(d: Disk, e: Disk, kept: set<Content>)
    requires PrunedTo(d, e, kept)
    ensures Unremovable(e) <= Unremovable(d) && (Searchable(e) <==> Searchable(d)) && RetainedObjects(e) == kept
  {
    FewerUnremovable(d, e);
    SameSearch(d, e);
  }

  /** Nothing that one of the four named transactions needs is lost or changed. */
  ghost predicate KeepsNeeded(d: Disk, e: Disk) {
    Complete(e) && forall o :: o in d.objects && Needed(d, o) ==> o in e.objects && e.objects[o] == d.objects[o]
  }

  /** Only what the four named transactions need is left. */
  ghost predicate OnlyNeeded(d: Disk) {
    (forall o :: o in d.objects ==> Needed(d, o)) && forall b :: b in d.transactions ==> NamedBy(d, b)
  }

  /** What is left, said of the files alone. */
  lemma LeftOnFiles(d: Disk, e: Disk)
    requires Safe(e) && e.manifest == d.manifest && e.prepared == d.prepared && RetainedObjects(d) <= e.objects.Keys
    ensures Complete(e) && forall o :: o in d.objects && Needed(d, o) ==> o in e.objects
    ensures e.objects.Keys == RetainedObjects(d) && e.transactions.Keys <= Named(e) ==> OnlyNeeded(e)
  {
    CompleteIsSafe(e);
    forall o ensures (Needed(d, o) <==> RetainedObject(d, o)) && (Needed(e, o) <==> Needed(d, o)) {
      NeededIsRetained(d, o);
    }
    forall b ensures b in Named(e) <==> NamedBy(e, b) {
      NamedIsNamedBy(e, b);
    }
    forall o | o in d.objects && Needed(d, o) ensures o in e.objects {
      assert o in RetainedObjects(d);
    }
  }

  /** What pruning did, said of the files alone. */
  lemma PrunedOnFiles(d: Disk, e: Disk)
    requires Safe(e) && e.manifest == d.manifest && e.prepared == d.prepared && RetainedObjects(d) <= e.objects.Keys
    requires OnlyGone(d.objects, e.objects, d.objects.Keys - RetainedObjects(d))
    ensures KeepsNeeded(d, e)
    ensures e.objects.Keys == RetainedObjects(d) && e.transactions.Keys <= Named(e) ==> OnlyNeeded(e)
  {
    LeftOnFiles(d, e);
  }

  lemma FewerGone<T(!new)>(before: map<T, T>, after: map<T, T>, gone: set<T>, kept: set<T>)
    requires OnlyGone(before, after, gone) && gone <= before.Keys - kept
    ensures OnlyGone(before, after, before.Keys - kept) && before.Keys * kept <= after.Keys
  {
  }

  /** What removing a plan means for the files as a whole. */
  lemma PlanRemoved(d: Disk, e: Disk, plan: Plan, kept: set<Content>, named: set<Bundle>, done: bool)
    requires named == Named(d) && e.manifest == d.manifest && e.prepared == d.prepared && kept <= d.objects.Keys
    requires plan.objects <= d.objects.Keys - kept && plan.transactions <= d.transactions.Keys - named
    requires OnlyGone(d.objects, e.objects, plan.objects) && OnlyGone(d.transactions, e.transactions, plan.transactions)
    requires done ==> e.objects == d.objects - plan.objects && e.transactions == d.transactions - plan.transactions
    ensures Named(e) == named && kept <= e.objects.Keys
    ensures OnlyGone(d.objects, e.objects, d.objects.Keys - kept)
    ensures OnlyGone(d.transactions, e.transactions, d.transactions.Keys - named)
    ensures done ==> |e.objects| + |plan.objects| == |d.objects|
    ensures done ==> |e.transactions| + |plan.transactions| == |d.transactions|
    ensures done && plan.objects == d.objects.Keys - kept ==> e.objects.Keys == kept
    ensures done && plan.transactions == d.transactions.Keys - named ==> e.transactions.Keys <= named
  {
    SameNames(d, e);
    FewerGone(d.objects, e.objects, plan.objects, kept);
    FewerGone(d.transactions, e.transactions, plan.transactions, named);
    if done {
      Removed(d.objects, e.objects, plan.objects, kept);
      Removed(d.transactions, e.transactions, plan.transactions, named);
    }
  }

  lemma SameSearch(d: Disk, e: Disk)
    requires e.manifest == d.manifest && e.prepared == d.prepared
    ensures Searchable(e) <==> Searchable(d)
  {
    SameNames(d, e);
    assert AllKept(e) == AllKept(d);
  }

  /** Removing what is not retained leaves the same retained objects. */
  lemma SameRetained(d: Disk, e: Disk)
    requires e.manifest == d.manifest && e.prepared == d.prepared
    requires RetainedObjects(d) <= e.objects.Keys <= d.objects.Keys
    ensures RetainedObjects(e) == RetainedObjects(d)
  {
    forall o ensures RetainedObject(e, o) <==> RetainedObject(d, o) {
      SameRetention(d, e, o);
    }
  }

  lemma FewerUnremovable(d: Disk, e: Disk)
    requires e.manifest == d.manifest && e.prepared == d.prepared
    requires RetainedObjects(e) == RetainedObjects(d) && e.transactions.Keys <= d.transactions.Keys
    ensures Unremovable(e) <= Unremovable(d)
  {
    SameNames(d, e);
    MoreElements(e.transactions.Keys * Named(e), d.transactions.Keys * Named(d));
  }

  lemma Removed<T>(before: map<T, T>, after: map<T, T>, gone: set<T>, kept: set<T>)
    requires gone <= before.Keys && after == before - gone
    ensures |after| + |gone| == |before|
    ensures gone == before.Keys - kept ==> after.Keys == before.Keys * kept
  {
    assert after.Keys == before.Keys - gone;
    assert |before.Keys - gone| + |gone| == |before.Keys|;
  }
}
