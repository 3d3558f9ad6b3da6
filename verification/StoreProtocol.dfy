/** The content-addressed transaction store of `src/persistence.rs` as a sequence of atomic file
    operations, with a crash possible between any two. A file name is the digest of its
    content, and digests are injective, so an object's name is identified with the content it
    stands for and a transaction's name with its bundle. */
module StoreProtocol {
  import opened Common

  /** Stored content, as far as the store looks into it: a JSON document, or anything else. */
  datatype Content = Document(json: Json) | Malformed(id: nat) | Other(id: nat)

  /** A JSON value; a string that is a digest is a reference. */
  datatype Json = Scalar | Reference(object: Content) | Nested(children: seq<Json>)

  datatype Bundle = Bundle(state: Content, snapshot: Content, rules: Content, effective: Content, revision: nat)

  datatype Prepared = Prepared(candidate: Bundle, previous: Option<Bundle>)

  datatype Manifest = Manifest(current: Bundle, previous: Option<Bundle>)

  /** The files: what each object name and transaction name holds, and the two named files. */
  datatype Disk = Disk(objects: map<Content, Content>, transactions: map<Bundle, Bundle>,
                       manifest: Option<Manifest>, prepared: Option<Prepared>)

  // ---------------------------------------------------------------------------
  // References and retention
  // ---------------------------------------------------------------------------

  function References(j: Json): set<Content> {
    match j
    case Scalar => {}
    case Reference(o) => {o}
    case Nested(children) => set i, o | 0 <= i < |children| && o in References(children[i]) :: o
  }

  function Referenced(c: Content): set<Content> {
    if c.Document? then References(c.json) else {}
  }

  function FourObjects(b: Bundle): set<Content> {
    {b.state, b.snapshot, b.rules, b.effective}
  }

  function Kept(b: Bundle): set<Content> {
    FourObjects(b) + Referenced(b.state)
  }

  function OptionSet(b: Option<Bundle>): set<Bundle> {
    if b.Some? then {b.value} else {}
  }

  /** The transactions named by the manifest or the journal. */
  function Named(d: Disk): set<Bundle> {
    (if d.manifest.Some? then {d.manifest.value.current} + OptionSet(d.manifest.value.previous) else {}) +
    (if d.prepared.Some? then {d.prepared.value.candidate} + OptionSet(d.prepared.value.previous) else {})
  }

  ghost predicate RetainedObject(d: Disk, o: Content) {
    exists b :: b in Named(d) && o in Kept(b)
  }

  ghost predicate Intact(d: Disk, b: Bundle) {
    b in d.transactions && d.transactions[b] == b &&
    forall o :: o in FourObjects(b) ==> o in d.objects && d.objects[o] == o
  }

  // ---------------------------------------------------------------------------
  // Steps and runs
  // ---------------------------------------------------------------------------

  datatype Op =
    | PutObject(object: Content)
    | PutTransaction(bundle: Bundle)
    | WriteJournal(journal: Prepared)
    | WriteManifest
    | RemoveJournal
    | RemoveObject(object: Content)
    | RemoveTransaction(bundle: Bundle)

  function Current(d: Disk): Option<Bundle> {
    if d.manifest.Some? then Some(d.manifest.value.current) else None
  }

  /** One atomic file operation, under what the code has checked before it. */
  ghost predicate Step(d: Disk, op: Op, e: Disk) {
    match op
    case PutObject(o) => e == d.(objects := d.objects[o := o])
    case PutTransaction(b) => e == d.(transactions := d.transactions[b := b])
    case WriteJournal(p) =>
      d.prepared.None? && Intact(d, p.candidate) && p.previous == Current(d) && e == d.(prepared := Some(p))
    case WriteManifest =>
      d.prepared.Some? && Current(d) == d.prepared.value.previous && Intact(d, d.prepared.value.candidate) &&
      e == d.(manifest := Some(Manifest(d.prepared.value.candidate, d.prepared.value.previous)))
    case RemoveJournal => d.prepared.Some? && e == d.(prepared := None)
    case RemoveObject(o) => !RetainedObject(d, o) && e == d.(objects := d.objects - {o})
    case RemoveTransaction(b) => b !in Named(d) && e == d.(transactions := d.transactions - {b})
  }

  datatype Entry = Entry(op: Op, disk: Disk)

  ghost predicate StepAt(start: Disk, h: seq<Entry>, i: nat) {
    i < |h| ==> Step(if i == 0 then start else h[i - 1].disk, h[i].op, h[i].disk)
  }

  ghost predicate IsRun(start: Disk, h: seq<Entry>) {
    forall i: nat :: StepAt(start, h, i)
  }

  function Last(start: Disk, h: seq<Entry>): Disk {
    if h == [] then start else h[|h| - 1].disk
  }

  lemma RunGrows(start: Disk, h: seq<Entry>, op: Op, e: Disk)
    requires IsRun(start, h) && Step(Last(start, h), op, e)
    ensures IsRun(start, h + [Entry(op, e)])
  {
    var h' := h + [Entry(op, e)];
    forall i: nat ensures StepAt(start, h', i) {
      assert StepAt(start, h, i);
    }
  }

  /** Every transaction named by the manifest or the journal is present with its four objects. */
  ghost predicate Safe(d: Disk) {
    forall b :: b in Named(d) ==> Intact(d, b)
  }

  lemma SafeStep(d: Disk, op: Op, e: Disk)
    requires Safe(d) && Step(d, op, e)
    ensures Safe(e)
  {
    forall b | b in Named(e) ensures Intact(e, b) {
      match op
      case WriteJournal(p) => assert b == p.candidate || b in Named(d);
      case WriteManifest => assert b in Named(d);
      case RemoveJournal => assert b in Named(d);
      case RemoveObject(o) =>
        assert b in Named(d);
        assert o !in Kept(b);
      case _ => assert b in Named(d);
    }
  }

  /** Main result. At every point of every run, hence after a crash anywhere, what the manifest
      and the journal name is complete. */
  lemma {:induction false} SafeOverRuns(start: Disk, h: seq<Entry>, n: nat)
    requires Safe(start) && IsRun(start, h) && n < |h|
    ensures Safe(h[n].disk)
    decreases n
  {
    assert StepAt(start, h, n);
    if n > 0 {
      SafeOverRuns(start, h, n - 1);
      SafeStep(h[n - 1].disk, h[n].op, h[n].disk);
    } else {
      SafeStep(start, h[0].op, h[0].disk);
    }
  }

  // ---------------------------------------------------------------------------
  // The same, on the files alone
  // ---------------------------------------------------------------------------

  /** The object named after `o` is there and holds `o`. */
  predicate Holds(d: Disk, o: Content) {
    o in d.objects && d.objects[o] == o
  }

  /** The transaction is there with its supervisor state, snapshot, rules and configuration. */
  predicate Present(d: Disk, b: Bundle) {
    b in d.transactions && d.transactions[b] == b &&
    Holds(d, b.state) && Holds(d, b.snapshot) && Holds(d, b.rules) && Holds(d, b.effective)
  }

  /** The manifest's current and previous transactions and the journal's candidate and previous
      ones are all there. */
  predicate Complete(d: Disk) {
    && (d.manifest.Some? ==>
          Present(d, d.manifest.value.current) &&
          (d.manifest.value.previous.Some? ==> Present(d, d.manifest.value.previous.value)))
    && (d.prepared.Some? ==>
          Present(d, d.prepared.value.candidate) &&
          (d.prepared.value.previous.Some? ==> Present(d, d.prepared.value.previous.value)))
  }

  lemma CompleteIsSafe(d: Disk)
    ensures Complete(d) <==> Safe(d)
  {
    assert d.manifest.Some? ==> d.manifest.value.current in Named(d);
    assert d.manifest.Some? && d.manifest.value.previous.Some? ==> d.manifest.value.previous.value in Named(d);
    assert d.prepared.Some? ==> d.prepared.value.candidate in Named(d);
    assert d.prepared.Some? && d.prepared.value.previous.Some? ==> d.prepared.value.previous.value in Named(d);
    forall b | b in Named(d) && Complete(d) ensures Intact(d, b) {
      assert Present(d, b);
    }
    forall b | b in Named(d) && Safe(d) ensures Present(d, b) {
      assert Intact(d, b);
    }
  }

  /** Main result. At every point of every run, hence after a crash anywhere, each of the four
      transactions that the manifest and the journal can name is there with its four objects. */
  lemma CompleteOverRuns(start: Disk, h: seq<Entry>, n: nat)
    requires Complete(start) && IsRun(start, h) && n < |h|
    ensures Complete(h[n].disk)
  {
    CompleteIsSafe(start);
    SafeOverRuns(start, h, n);
    CompleteIsSafe(h[n].disk);
  }

  /** The value at a path of child positions. */
  function At(j: Json, path: seq<nat>): Option<Json>
    decreases |path|
  {
    if path == [] then Some(j)
    else if j.Nested? && path[0] < |j.children| then At(j.children[path[0]], path[1..])
    else None
  }

  ghost predicate MentionedAt(j: Json, path: seq<nat>, o: Content) {
    At(j, path) == Some(Reference(o))
  }

  /** The references of a document are what stands at some path of it. */
  lemma {:induction false} ReferencesAreMentions(j: Json, o: Content)
    ensures o in References(j) <==> exists path :: MentionedAt(j, path, o)
    decreases j
  {
    match j
    case Scalar =>
      forall path ensures !MentionedAt(j, path, o) {
      }
    case Reference(r) =>
      assert At(j, []) == Some(j);
      assert r == o ==> MentionedAt(j, [], o);
      forall path | MentionedAt(j, path, o) ensures r == o {
        assert path == [];
      }
    case Nested(children) =>
      if o in References(j) {
        var i :| 0 <= i < |children| && o in References(children[i]);
        ReferencesAreMentions(children[i], o);
        var path :| MentionedAt(children[i], path, o);
        assert ([i] + path)[1..] == path;
        assert MentionedAt(j, [i] + path, o);
      }
      if path :| MentionedAt(j, path, o) {
        assert path != [];
        assert MentionedAt(children[path[0]], path[1..], o);
        ReferencesAreMentions(children[path[0]], o);
      }
  }

  /** One of the four named transactions needs the object: as one of its four, or because its
      supervisor state mentions it. */
  ghost predicate NeededBy(b: Bundle, o: Content) {
    o == b.state || o == b.snapshot || o == b.rules || o == b.effective ||
    (b.state.Document? && exists path :: MentionedAt(b.state.json, path, o))
  }

  ghost predicate Needed(d: Disk, o: Content) {
    || (d.manifest.Some? &&
          (NeededBy(d.manifest.value.current, o) ||
           (d.manifest.value.previous.Some? && NeededBy(d.manifest.value.previous.value, o))))
    || (d.prepared.Some? &&
          (NeededBy(d.prepared.value.candidate, o) ||
           (d.prepared.value.previous.Some? && NeededBy(d.prepared.value.previous.value, o))))
  }

  lemma NeededIsKept(b: Bundle, o: Content)
    ensures NeededBy(b, o) <==> o in Kept(b)
  {
    if b.state.Document? {
      ReferencesAreMentions(b.state.json, o);
    }
  }

  lemma NeededIsRetained(d: Disk, o: Content)
    ensures Needed(d, o) <==> RetainedObject(d, o)
  {
    forall b ensures NeededBy(b, o) <==> o in Kept(b) {
      NeededIsKept(b, o);
    }
    if d.manifest.Some? {
      assert d.manifest.value.current in Named(d);
      assert d.manifest.value.previous.Some? ==> d.manifest.value.previous.value in Named(d);
    }
    if d.prepared.Some? {
      assert d.prepared.value.candidate in Named(d);
      assert d.prepared.value.previous.Some? ==> d.prepared.value.previous.value in Named(d);
    }
  }

  /** The transaction is one of the four. */
  predicate NamedBy(d: Disk, b: Bundle) {
    || (d.manifest.Some? && (b == d.manifest.value.current || d.manifest.value.previous == Some(b)))
    || (d.prepared.Some? && (b == d.prepared.value.candidate || d.prepared.value.previous == Some(b)))
  }

  lemma NamedIsNamedBy(d: Disk, b: Bundle)
    ensures b in Named(d) <==> NamedBy(d, b)
  {
  }

  /** Main result. The manifest changes only while a journal is there whose `previous` is the
      committed transaction, and then to the journal's `candidate` and `previous`; the journal
      appears only for a complete candidate over the committed transaction; and no operation
      takes or changes an object that a named supervisor state mentions. */
  lemma ManifestFollowsTheJournal(start: Disk, h: seq<Entry>, n: nat)
    requires IsRun(start, h) && n < |h|
    ensures var before, after := if n == 0 then start else h[n - 1].disk, h[n].disk;
            var committed := if before.manifest.Some? then Some(before.manifest.value.current) else None;
            && (after.manifest != before.manifest ==>
                  before.prepared.Some? && before.prepared.value.previous == committed &&
                  after.prepared == before.prepared &&
                  after.manifest == Some(Manifest(before.prepared.value.candidate, committed)))
            && (after.prepared != before.prepared && after.prepared.Some? ==>
                  before.prepared.None? && after.prepared.value.previous == committed &&
                  Present(after, after.prepared.value.candidate) && after.manifest == before.manifest)
            && (forall o :: o in before.objects && Needed(before, o) ==>
                  o in after.objects && (after.objects[o] == before.objects[o] || after.objects[o] == o))
  {
    assert StepAt(start, h, n);
    var before, after := if n == 0 then start else h[n - 1].disk, h[n].disk;
    forall o | o in before.objects && Needed(before, o)
      ensures o in after.objects && (after.objects[o] == before.objects[o] || after.objects[o] == o)
    {
      NeededIsRetained(before, o);
    }
  }
}
