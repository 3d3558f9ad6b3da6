/** The loops of `src/config.rs` that edit mappings in place and push records, proved
    against the value-level definitions, for every order in which a mapping is visited. */
module ConfigLoops {
  import opened Common
  import opened ConfigSchema
  import opened ConfigCompile
  import opened ConfigAgreement

  // ---------------------------------------------------------------------------
  // strip_managed_mapping and strip_managed_node
  // ---------------------------------------------------------------------------

  ghost function Only(f: Fields, names: set<string>): Fields {
    Fields(map k | k in f.of && k in names :: f.of[k])
  }

  /** Handling one more field extends the set of handled fields. */
  lemma StripOneMore(m: map<Key, Value>, f: Fields, done: set<string>, field: string, r: map<Key, Value>)
    requires field in f.of && field !in done
    requires var before := StripMapping(m, Only(f, done));
             r == if Managed(f.of[field]) then before - {StringKey(field)}
                  else if StringKey(field) in before
                  then before[StringKey(field) := StripNode(before[StringKey(field)], f.of[field])]
                  else before
    ensures r == StripMapping(m, Only(f, done + {field}))
  {
    var before := StripMapping(m, Only(f, done));
    assert StringKey(field) in m ==> StringKey(field) in before && before[StringKey(field)] == m[StringKey(field)];
    var after := StripMapping(m, Only(f, done + {field}));
    assert r.Keys == after.Keys;
  }

  method StripManagedMapping(m: map<Key, Value>, f: Fields) returns (r: map<Key, Value>)
    ensures r == StripMapping(m, f)
    decreases f
  {
    r := m;
    var todo := f.of.Keys;
    assert StripMapping(m, Only(f, {})) == m;
    while todo != {}
      invariant todo <= f.of.Keys
      invariant r == StripMapping(m, Only(f, f.of.Keys - todo))
      decreases todo
    {
      var field :| field in todo;
      ghost var done := f.of.Keys - todo;
      if Managed(f.of[field]) {
        r := r - {StringKey(field)};
      } else if StringKey(field) in r {
        var v := StripManagedNode(r[StringKey(field)], f.of[field]);
        r := r[StringKey(field) := v];
      }
      StripOneMore(m, f, done, field, r);
      todo := todo - {field};
      assert done + {field} == f.of.Keys - todo;
    }
    assert Only(f, f.of.Keys).of == f.of;
  }

  method StripManagedNode(v: Value, s: Schema) returns (r: Value)
    ensures r == StripNode(v, s)
    decreases s
  {
    r := v;
    match (v, s)
    case (Sequence(items), SequenceOf(item)) =>
      var out: seq<Value> := [];
      for i := 0 to |items|
        invariant |out| == i && forall j :: 0 <= j < i ==> out[j] == StripNode(items[j], item)
      {
        var x := StripManagedNode(items[i], item);
        out := out + [x];
      }
      r := Sequence(out);
    case (Mapping(m), MappingOf(fields, _, _)) =>
      var m' := StripManagedMapping(m, fields);
      r := Mapping(m');
    case (Mapping(m), NamedMap(value)) =>
      var m' := m;
      var todo := m.Keys;
      while todo != {}
        invariant todo <= m.Keys && m'.Keys == m.Keys
        invariant forall k :: k in m ==> m'[k] == if k in todo then m[k] else StripNode(m[k], value)
        decreases todo
      {
        var k :| k in todo;
        var x := StripManagedNode(m'[k], value);
        m' := m'[k := x];
        todo := todo - {k};
      }
      r := Mapping(m');
    case (Mapping(m), Discriminated(discriminator, common, variants, _, _, _)) =>
      var variant := SelectVariant(m, discriminator, variants);
      if variant.Some? {
        var m1 := StripManagedMapping(m, common);
        var m2 := StripManagedMapping(m1, variants[m[StringKey(discriminator)].s]);
        r := Mapping(m2);
      }
    case _ =>
  }

  // ---------------------------------------------------------------------------
  // classify_provider_section and compile
  // ---------------------------------------------------------------------------

  /** The records of the providers already visited. */
  ghost function RecordsOf(o: Outcomes, done: set<Key>): set<ProviderRecord> {
    set k | k in o && k in done && o[k].Ok? && o[k].value.record.Some? :: o[k].value.record.value
  }

  lemma RecordsGrow(o: Outcomes, done: set<Key>, k: Key)
    requires k in o && o[k].Ok?
    ensures RecordsOf(o, done + {k}) ==
            RecordsOf(o, done) + (if o[k].value.record.Some? then {o[k].value.record.value} else {})
  {
    forall r | r in RecordsOf(o, done) ensures r in RecordsOf(o, done + {k}) {
      var j :| j in o && j in done && o[j].Ok? && o[j].value.record.Some? && o[j].value.record.value == r;
      assert j in done + {k};
    }
    if o[k].value.record.Some? {
      assert k in done + {k};
    }
  }

  /** `keys` is an order in which a mapping is visited. */
  ghost predicate Enumerates(keys: seq<Key>, all: set<Key>) {
    (forall i, j :: 0 <= i < j < |keys| ==> keys[i] != keys[j]) && forall k :: k in keys <==> k in all
  }

  /** The first failing provider in that order fails with `f`. */
  ghost predicate FirstFails(o: Outcomes, keys: seq<Key>, f: Failure) {
    exists i :: 0 <= i < |keys| && keys[i] in o && o[keys[i]] == Err(f) &&
                forall j :: 0 <= j < i ==> keys[j] in o && o[keys[j]].Ok?
  }

  /** The loop over one section, for any way to classify a provider: it succeeds exactly when
      every provider does, with the same result for every order, and otherwise reports the
      first failing provider in the document's order. */
  method ClassifyEntries(m: map<Key, Value>, keys: seq<Key>, classify: (Key, Value) -> Result<Classified, Failure>,
                         ghost o: Outcomes)
    returns (r: Result<(map<Key, Value>, set<ProviderRecord>), Failure>)
    requires Enumerates(keys, m.Keys)
    requires o.Keys == m.Keys && forall k :: k in m ==> o[k] == classify(k, m[k])
    ensures r.Ok? <==> AllClassified(o)
    ensures r.Ok? ==> r.value == (Rewritten(o), Records(o))
    ensures r.Err? ==> FirstFails(o, keys, r.error)
  {
    var providers := m;
    var records: set<ProviderRecord> := {};
    ghost var done: set<Key> := {};
    for i := 0 to |keys|
      invariant done <= m.Keys && providers.Keys == m.Keys
      invariant forall j :: 0 <= j < |keys| ==> (keys[j] in done <==> j < i)
      invariant forall k :: k in m ==>
                  if k in done then o[k].Ok? && providers[k] == o[k].value.value else providers[k] == m[k]
      invariant records == RecordsOf(o, done)
    {
      var k := keys[i];
      assert k in keys;
      var c := classify(k, providers[k]);
      assert c == o[k];
      if c.Err? {
        forall j | 0 <= j < i ensures keys[j] in o && o[keys[j]].Ok? {
          assert keys[j] in done;
        }
        return Err(c.error);
      }
      providers := providers[k := c.value.value];
      if c.value.record.Some? {
        records := records + {c.value.record.value};
      }
      RecordsGrow(o, done, k);
      done := done + {k};
    }
    assert done == o.Keys by {
      forall k | k in o.Keys ensures k in done {
        assert k in keys;
      }
    }
    assert providers == Rewritten(o) && records == Records(o);
    return Ok((providers, records));
  }

  method ClassifyProviderSection(host: Host, root: seq<string>, e: Effective, section: Section, keys: seq<Key>)
    returns (r: Result<Effective, Failure>)
    requires var at := K(SectionKey(section));
             at in e.document && e.document[at].Mapping? ==> Enumerates(keys, e.document[at].entries.Keys)
    ensures r.Ok? <==> ClassifySection(host, root, e, section).Ok?
    ensures r.Ok? ==> r == ClassifySection(host, root, e, section)
    ensures r.Err? ==>
              var at := K(SectionKey(section));
              at in e.document && e.document[at].Mapping? &&
              FirstFails(ClassifyAll(host, root, section, e.document[at].entries), keys, r.error)
    ensures r == Err(Panicked) ==> ClassifySection(host, root, e, section) == Err(Panicked)
  {
    var at := K(SectionKey(section));
    if at !in e.document || !e.document[at].Mapping? {
      return Ok(e);
    }
    var m := e.document[at].entries;
    var c := ClassifyEntries(m, keys, (k: Key, v: Value) => ClassifyProvider(host, root, section, k, v),
                             ClassifyAll(host, root, section, m));
    if c.Err? {
      return Err(c.error);
    }
    return Ok(Effective(e.document[at := Mapping(c.value.0)], e.providers + c.value.1));
  }

  /** A mapping's keys in some order; values do not carry the document's. */
  method SomeOrder(all: set<Key>) returns (keys: seq<Key>)
    ensures Enumerates(keys, all)
  {
    keys := [];
    var todo := all;
    while todo != {}
      invariant todo <= all && Enumerates(keys, all - todo)
      decreases todo
    {
      var k :| k in todo;
      keys := keys + [k];
      todo := todo - {k};
    }
    assert all - todo == all;
  }

  method ClassifySomeOrder(host: Host, root: seq<string>, e: Effective, section: Section)
    returns (r: Result<Effective, Failure>)
    ensures r.Ok? <==> ClassifySection(host, root, e, section).Ok?
    ensures r.Ok? ==> r == ClassifySection(host, root, e, section)
    ensures r == Err(Panicked) ==> ClassifySection(host, root, e, section) == Err(Panicked)
  {
    var at := K(SectionKey(section));
    var keys: seq<Key> := [];
    if at in e.document && e.document[at].Mapping? {
      keys := SomeOrder(e.document[at].entries.Keys);
    }
    r := ClassifyProviderSection(host, root, e, section, keys);
  }

  /** Both sections, and the final validation. */
  method FinishConfiguration(policy: Policy, host: Host, root: seq<string>, doc: Document)
    returns (r: Result<Effective, Failure>)
    ensures r.Ok? <==> Finish(policy, host, root, doc).Ok?
    ensures r.Ok? ==> r == Finish(policy, host, root, doc)
    ensures r == Err(Panicked) ==> Finish(policy, host, root, doc) == Err(Panicked)
  {
    var e1 := ClassifySomeOrder(host, root, Effective(doc, {}), Proxy);
    if e1.Err? {
      return e1;
    }
    var e2 := ClassifySomeOrder(host, root, e1.value, Rule);
    if e2.Err? {
      return e2;
    }
    if !ValidMapping(e2.value.document, policy.top, policy.additional) {
      return Err(Rejected);
    }
    return e2;
  }

  /** The whole compilation. A policy the compiler can work under rules out the panics, and then
      the result is the specified one in every case. */
  method CompileConfiguration(policy: Policy, host: Host, doc: Document, o: Overrides)
    returns (r: Result<Effective, Failure>)
    ensures r.Ok? <==> CompileWith(policy, host, doc, o).Ok?
    ensures r.Ok? ==> r == CompileWith(policy, host, doc, o)
    ensures r == Err(Panicked) ==> CompileWith(policy, host, doc, o) == Err(Panicked)
    ensures Supports(policy, o) && host.Faithful() ==> r == CompileWith(policy, host, doc, o)
  {
    r := CompileSteps(policy, host, doc, o);
    ghost var c := CompileWith(policy, host, doc, o);
    if Supports(policy, o) && host.Faithful() {
      CompiledAgrees(policy, host, doc, o, {});
      assert c.Err? ==> c.error == Rejected;
      assert r.Err? ==> r.error == Rejected;
    }
  }

  method CompileSteps(policy: Policy, host: Host, doc: Document, o: Overrides)
    returns (r: Result<Effective, Failure>)
    ensures r.Ok? <==> CompileWith(policy, host, doc, o).Ok?
    ensures r.Ok? ==> r == CompileWith(policy, host, doc, o)
    ensures r == Err(Panicked) ==> CompileWith(policy, host, doc, o) == Err(Panicked)
  {
    if !ValidMapping(doc, policy.top, policy.additional) || host.root.None? {
      return Err(Rejected);
    }
    var document := StripManagedMapping(doc, policy.top);
    document := document + o.top;
    var dns := if K("dns") in document then document[K("dns")] else Mapping(map[]);
    if !dns.Mapping? {
      return Err(Rejected);
    }
    document := document[K("dns") := Mapping(dns.entries + o.dns)];
    assert map[] + o.dns == o.dns;
    assert Override(StripMapping(doc, policy.top), o) == Ok(document);
    r := FinishConfiguration(policy, host, host.root.value, document);
  }
}
