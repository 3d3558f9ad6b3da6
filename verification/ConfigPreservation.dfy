/** What compilation leaves of the user's document, by path: whatever is not dictated,
    managed or the path of a provider is as it was, and nothing else appears. */
module ConfigPreservation {
  import opened Common
  import opened Strings
  import opened ConfigSchema
  import opened ConfigStrip
  import opened ConfigCompile
  import opened ConfigAgreement

  /** The schema of a whole document. */
  function Top(p: Policy): Schema {
    MappingOf(p.top, [], p.additional)
  }

  // ---------------------------------------------------------------------------
  // Lookups in documents that agree on an entry
  // ---------------------------------------------------------------------------

  ghost predicate Agree(a: Document, b: Document, k: Key) {
    (k in a <==> k in b) && (k in a ==> a[k] == b[k])
  }

  lemma LookupAgrees(a: Document, b: Document, path: seq<Step>)
    requires path != [] && (path[0].Field? ==> Agree(a, b, path[0].key))
    ensures Lookup(Mapping(a), path) == Lookup(Mapping(b), path)
  {
  }

  /** The path is in both with the same scalar or kind of container, or in neither. */
  ghost predicate SameAt(before: Option<Value>, after: Option<Value>) {
    match before
    case None => after.None?
    case Some(x) => after.Some? && SameKind(x, after.value)
  }

  lemma SameAtTransitive(a: Option<Value>, b: Option<Value>, c: Option<Value>)
    requires SameAt(a, b) && SameAt(b, c)
    ensures SameAt(a, c)
  {
  }

  // ---------------------------------------------------------------------------
  // Providers
  // ---------------------------------------------------------------------------

  /** A provider has every entry it had except `path`, and no other. */
  ghost predicate KeepsEntries(v: Value, w: Value) {
    v.Mapping? && w.Mapping? && forall step :: step != Field(K("path")) ==> Child(w, step) == Child(v, step)
  }

  lemma ProviderKeepsEntries(host: Host, root: seq<string>, section: Section, k: Key, v: Value)
    requires ClassifyProvider(host, root, section, k, v).Ok?
    ensures KeepsEntries(v, ClassifyProvider(host, root, section, k, v).value.value)
  {
  }

  /** What classification makes of each kind of provider: a remote one needs an HTTP URL and is
      recorded with its name and URL at a path of its own; a local one needs a regular file below
      the root and is recorded at its place there; an inline one has no path and no record. */
  lemma ClassifiedByKind(host: Host, root: seq<string>, section: Section, k: Key, v: Value, kind: string)
    requires k.StringKey? && v.Mapping? && TextAt(v.entries, "type") == Some(kind)
    ensures var c := ClassifyProvider(host, root, section, k, v);
            && (c.Ok? ==> TextAt(c.value.value.entries, "type") == Some(kind))
            && (c.Ok? && c.value.record.Some? ==>
                  var r := c.value.record.value;
                  r.section == section && r.name == k.s &&
                  TextAt(c.value.value.entries, "path") == Some(SlashForm(r.relative)))
            && (kind == "http" ==>
                  var url := TextAt(v.entries, "url");
                  (c.Ok? <==> url.Some? && host.httpUrl(url.value)) &&
                  (c.Ok? ==> c.value.record.Some? && c.value.record.value.kind == Remote(url.value)))
            && (kind == "file" && c.Ok? ==>
                  c.value.record.Some? && c.value.record.value.kind.Local? &&
                  var source := c.value.record.value.kind.source;
                  root < source && host.isFile(source) && Join(source[|root|..], '/') == c.value.record.value.relative)
            && (kind == "inline" ==> c.Ok? && c.value.record.None? && K("path") !in c.value.value.entries)
  {
  }

  /** Unless the hash collides, no two remote providers share a file. */
  lemma RemoteProvidersDoNotCollide(host: Host, section1: Section, name1: string, url1: string,
                                    section2: Section, name2: string, url2: string)
    requires host.Faithful() && '\0' !in name1 && '\0' !in name2
    requires forall s, t :: host.sha256(s) == host.sha256(t) ==> s == t
    requires RemotePath(host, section1, name1, url1) == RemotePath(host, section2, name2, url2)
    ensures section1 == section2 && name1 == name2 && url1 == url2
  {
    RemotePathNames(host, section1, name1, url1);
    RemotePathNames(host, section2, name2, url2);
    var one, two := Identity(section1, name1, url1), Identity(section2, name2, url2);
    assert host.sha256(one) == host.sha256(two) by {
      assert (host.sha256(one) + ".yaml")[..|host.sha256(one)|] == host.sha256(one);
      assert (host.sha256(two) + ".yaml")[..|host.sha256(two)|] == host.sha256(two);
    }
    IdentitySplits(section1, name1, url1);
    IdentitySplits(section2, name2, url2);
    JoinSplit(url1, '\0');
    JoinSplit(url2, '\0');
    assert Split(one, '\0')[2..] == Split(url1, '\0');
    assert Split(two, '\0')[2..] == Split(url2, '\0');
  }

  function Identity(section: Section, name: string, url: string): string {
    Directory(section) + "\0" + name + "\0" + url
  }

  lemma RemotePathNames(host: Host, section: Section, name: string, url: string)
    requires host.Faithful()
    ensures Split(RemotePath(host, section, name, url), '/') ==
            ["providers", Directory(section), host.sha256(Identity(section, name, url)) + ".yaml"]
  {
    var digest := host.sha256(Identity(section, name, url));
    assert NormalName(digest);
    JoinedNamesAreNormal(["providers", Directory(section), digest + ".yaml"]);
  }

  lemma IdentitySplits(section: Section, name: string, url: string)
    requires '\0' !in name
    ensures Split(Identity(section, name, url), '\0') == [Directory(section), name] + Split(url, '\0')
  {
    var rest := name + ['\0'] + url;
    assert Identity(section, name, url) == Directory(section) + ['\0'] + rest;
    SplitTwice(Identity(section, name, url), Directory(section), rest, name, url, '\0');
  }

  lemma SplitTwice(whole: string, a: string, rest: string, b: string, c: string, sep: char)
    requires sep !in a && sep !in b && whole == a + [sep] + rest && rest == b + [sep] + c
    ensures Split(whole, sep) == [a, b] + Split(c, sep)
  {
    SplitField(a, rest, sep);
    SplitField(b, c, sep);
    assert [a] + ([b] + Split(c, sep)) == [a, b] + Split(c, sep);
  }

  // ---------------------------------------------------------------------------
  // Sections
  // ---------------------------------------------------------------------------

  /** The place of a provider in a document. */
  function ProviderAt(section: Section, name: Key): seq<Step> {
    [Field(K(SectionKey(section))), Field(name)]
  }

  ghost predicate AtProviderPath(section: Section, path: seq<Step>) {
    |path| >= 3 && path[0] == Field(K(SectionKey(section))) && path[2] == Field(K("path"))
  }

  lemma SectionKeepsPaths(host: Host, root: seq<string>, e: Effective, section: Section, path: seq<Step>)
    requires ClassifySection(host, root, e, section).Ok? && path != [] && !AtProviderPath(section, path)
    ensures SameAt(Lookup(Mapping(e.document), path),
                   Lookup(Mapping(ClassifySection(host, root, e, section).value.document), path))
  {
    var at := K(SectionKey(section));
    var after := ClassifySection(host, root, e, section).value.document;
    if path[0] == Field(at) && at in e.document && e.document[at].Mapping? {
      var m := e.document[at].entries;
      RewrittenKeepsEntries(host, root, section, m);
      EntriesKeepPaths(m, Rewritten(ClassifyAll(host, root, section, m)), path[1..]);
    } else {
      LookupAgrees(e.document, after, path);
    }
  }

  lemma RewrittenKeepsEntries(host: Host, root: seq<string>, section: Section, m: map<Key, Value>)
    requires AllClassified(ClassifyAll(host, root, section, m))
    ensures var after := Rewritten(ClassifyAll(host, root, section, m));
            after.Keys == m.Keys && forall k :: k in m ==> KeepsEntries(m[k], after[k])
  {
    var o := ClassifyAll(host, root, section, m);
    forall k | k in m ensures KeepsEntries(m[k], Rewritten(o)[k]) {
      assert o[k].Ok?;
      ProviderKeepsEntries(host, root, section, k, m[k]);
    }
  }

  lemma EntriesKeepPaths(m: map<Key, Value>, after: map<Key, Value>, path: seq<Step>)
    requires after.Keys == m.Keys && forall k :: k in m ==> KeepsEntries(m[k], after[k])
    requires |path| >= 2 ==> path[1] != Field(K("path"))
    ensures SameAt(Lookup(Mapping(m), path), Lookup(Mapping(after), path))
  {
    if path != [] && path[0].Field? && path[0].key in m {
      var k := path[0].key;
      assert KeepsEntries(m[k], after[k]);
      if |path| >= 2 {
        LookupBelow(m[k], after[k], path[1..]);
      } else {
        assert path == [Field(k)];
        LookupField(m, k);
        LookupField(after, k);
      }
    }
  }

  lemma LookupBelow(v: Value, w: Value, path: seq<Step>)
    requires path != [] && Child(v, path[0]) == Child(w, path[0])
    ensures Lookup(v, path) == Lookup(w, path)
  {
  }

  // ---------------------------------------------------------------------------
  // The whole compilation
  // ---------------------------------------------------------------------------

  /** The dictated entries are apart from `dns` and the provider sections. */
  ghost predicate Separate(o: Overrides) {
    K("dns") !in o.top && K(SectionKey(Proxy)) !in o.top && K(SectionKey(Rule)) !in o.top
  }

  /** The document that has the dictated values and nothing else. */
  function Alone(o: Overrides): Document {
    o.top[K("dns") := Mapping(o.dns)]
  }

  /** The path is inside a dictated value. */
  ghost predicate Dictates(o: Overrides, path: seq<Step>) {
    path != [] && path[0].Field? &&
    (path[0].key in o.top ||
     (path[0].key == K("dns") && |path| >= 2 && path[1].Field? && path[1].key in o.dns))
  }

  /** Where the path exists in the input and crosses no managed field it exists in the output,
      with the same scalar or kind of container; otherwise it does not. */
  ghost predicate Survives(p: Policy, doc: Document, after: Document, path: seq<Step>) {
    var x := Lookup(Mapping(doc), path);
    SameAt(if x.Some? && Crosses(Mapping(doc), Top(p), path, Managed) then None else x, Lookup(Mapping(after), path))
  }

  lemma StrippedSurvives(p: Policy, doc: Document, path: seq<Step>)
    requires WellFormedFields(p.top)
    ensures Survives(p, doc, StripMapping(doc, p.top), path)
  {
    StripRemovesExactlyManagedPaths(Mapping(doc), Top(p), path);
  }

  lemma OverriddenByPath(stripped: Document, o: Overrides, path: seq<Step>)
    requires Override(stripped, o).Ok? && K("dns") !in o.top && path != [] && path != [Field(K("dns"))]
    ensures var after := Lookup(Mapping(Override(stripped, o).value), path);
            after == if Dictates(o, path) then Lookup(Mapping(Alone(o)), path) else Lookup(Mapping(stripped), path)
  {
    var d := Override(stripped, o).value;
    if path[0] == Field(K("dns")) {
      var before: map<Key, Value> := if K("dns") in stripped then stripped[K("dns")].entries else map[];
      assert d[K("dns")] == Mapping(before + o.dns);
      if Dictates(o, path) {
        LookupBelow(Mapping(before + o.dns), Mapping(o.dns), path[1..]);
      } else {
        LookupBelow(Mapping(before + o.dns), Mapping(before), path[1..]);
        assert Child(Mapping(map[]), path[1]).None?;
      }
    } else if Dictates(o, path) {
      LookupAgrees(d, Alone(o), path);
    } else {
      LookupAgrees(d, stripped, path);
    }
  }

  lemma FinishedByPath(p: Policy, host: Host, root: seq<string>, doc: Document, path: seq<Step>)
    requires Finish(p, host, root, doc).Ok? && path != []
    requires !AtProviderPath(Proxy, path) && !AtProviderPath(Rule, path)
    ensures SameAt(Lookup(Mapping(doc), path), Lookup(Mapping(Finish(p, host, root, doc).value.document), path))
  {
    var e0 := Effective(doc, {});
    var e1 := ClassifySection(host, root, e0, Proxy).value;
    var e2 := ClassifySection(host, root, e1, Rule).value;
    SectionKeepsPaths(host, root, e0, Proxy, path);
    SectionKeepsPaths(host, root, e1, Rule, path);
    SameAtTransitive(Lookup(Mapping(doc), path), Lookup(Mapping(e1.document), path),
                     Lookup(Mapping(e2.document), path));
  }

  lemma FinishedElsewhere(p: Policy, host: Host, root: seq<string>, doc: Document, path: seq<Step>)
    requires Finish(p, host, root, doc).Ok? && path != []
    requires path[0] != Field(K(SectionKey(Proxy))) && path[0] != Field(K(SectionKey(Rule)))
    ensures Lookup(Mapping(Finish(p, host, root, doc).value.document), path) == Lookup(Mapping(doc), path)
  {
    var e1 := ClassifySection(host, root, Effective(doc, {}), Proxy).value;
    var e2 := ClassifySection(host, root, e1, Rule).value;
    LookupAgrees(doc, e1.document, path);
    LookupAgrees(e1.document, e2.document, path);
  }

  /** Main result. In every compiled document: a path inside a dictated value has that value;
      any other path, except `dns` itself and the `path` of a provider, is in the output exactly
      if it is in the user's document and crosses no managed field, with the same scalar or the
      same kind of container. So no user setting is lost and no key is made up. */
  lemma CompiledByPath(p: Policy, host: Host, doc: Document, o: Overrides, path: seq<Step>)
    requires WellFormedFields(p.top) && Separate(o) && CompileWith(p, host, doc, o).Ok?
    requires path != [] && path != [Field(K("dns"))]
    requires !AtProviderPath(Proxy, path) && !AtProviderPath(Rule, path)
    ensures var after := CompileWith(p, host, doc, o).value.document;
            if Dictates(o, path) then Lookup(Mapping(after), path) == Lookup(Mapping(Alone(o)), path)
            else Survives(p, doc, after, path)
  {
    var stripped := StripMapping(doc, p.top);
    var d := Override(stripped, o).value;
    var root := host.root.value;
    StrippedSurvives(p, doc, path);
    OverriddenByPath(stripped, o, path);
    if Dictates(o, path) {
      FinishedElsewhere(p, host, root, d, path);
    } else {
      FinishedByPath(p, host, root, d, path);
      var x := Lookup(Mapping(doc), path);
      SameAtTransitive(if x.Some? && Crosses(Mapping(doc), Top(p), path, Managed) then None else x,
                       Lookup(Mapping(d), path),
                       Lookup(Mapping(CompileWith(p, host, doc, o).value.document), path));
    }
  }

  // ---------------------------------------------------------------------------
  // The provider records
  // ---------------------------------------------------------------------------

  function SectionEntries(d: Document, section: Section): map<Key, Value> {
    var at := K(SectionKey(section));
    if at in d && d[at].Mapping? then d[at].entries else map[]
  }

  /** The record tells of a provider that the document has. */
  ghost predicate Described(m: map<Key, Value>, r: ProviderRecord) {
    K(r.name) in m && m[K(r.name)].Mapping? &&
    var entries := m[K(r.name)].entries;
    TextAt(entries, "path") == Some(SlashForm(r.relative)) &&
    match r.kind
    case Remote(url) => TextAt(entries, "type") == Some("http") && TextAt(entries, "url") == Some(url)
    case Local(_) => TextAt(entries, "type") == Some("file")
  }

  ghost predicate Stored(v: Value) {
    v.Mapping? && TextAt(v.entries, "type") in {Some("http"), Some("file")}
  }

  /** The records of a section and its stored providers are the same. */
  ghost predicate Matches(m: map<Key, Value>, providers: set<ProviderRecord>, section: Section) {
    (forall r :: r in providers && r.section == section ==> Described(m, r)) &&
    (forall k :: k in m && Stored(m[k]) ==> exists r :: r in providers && r.section == section && K(r.name) == k)
  }

  lemma OutcomeMatches(host: Host, root: seq<string>, section: Section, k: Key, v: Value)
    requires ClassifyProvider(host, root, section, k, v).Ok?
    ensures var c := ClassifyProvider(host, root, section, k, v).value;
            (c.record.Some? ==>
               c.record.value.section == section && K(c.record.value.name) == k &&
               Described(map[k := c.value], c.record.value)) &&
            (Stored(c.value) ==> c.record.Some?)
  {
    ClassifiedByKind(host, root, section, k, v, TextAt(v.entries, "type").value);
  }

  lemma OutcomesMatch(host: Host, root: seq<string>, section: Section, m: map<Key, Value>)
    requires AllClassified(ClassifyAll(host, root, section, m))
    ensures var o := ClassifyAll(host, root, section, m);
            Matches(Rewritten(o), Records(o), section) && forall r :: r in Records(o) ==> r.section == section
  {
    var o := ClassifyAll(host, root, section, m);
    forall k | k in o
      ensures o[k].value.record.Some? ==>
                o[k].value.record.value.section == section && K(o[k].value.record.value.name) == k &&
                Described(Rewritten(o), o[k].value.record.value)
      ensures Stored(Rewritten(o)[k]) ==> o[k].value.record.Some? && o[k].value.record.value in Records(o)
    {
      assert o[k].Ok?;
      OutcomeMatches(host, root, section, k, m[k]);
    }
    forall r | r in Records(o) ensures r.section == section && Described(Rewritten(o), r) {
      var k :| k in o && o[k].value.record == Some(r);
    }
  }

  lemma SectionMatches(host: Host, root: seq<string>, e: Effective, section: Section)
    requires ClassifySection(host, root, e, section).Ok? && forall r :: r in e.providers ==> r.section != section
    ensures var after := ClassifySection(host, root, e, section).value;
            Matches(SectionEntries(after.document, section), after.providers, section) &&
            e.providers <= after.providers &&
            forall r :: r in after.providers && r.section != section ==> r in e.providers
  {
    var at := K(SectionKey(section));
    if at in e.document && e.document[at].Mapping? {
      var m := e.document[at].entries;
      var o := ClassifyAll(host, root, section, m);
      OutcomesMatch(host, root, section, m);
      MoreRecords(Rewritten(o), e.providers, Records(o), section);
    }
  }

  lemma MoreRecords(m: map<Key, Value>, before: set<ProviderRecord>, records: set<ProviderRecord>, section: Section)
    requires Matches(m, records, section) && forall r :: r in before ==> r.section != section
    ensures Matches(m, before + records, section)
  {
    forall k | k in m && Stored(m[k])
      ensures exists r :: r in before + records && r.section == section && K(r.name) == k
    {
      var r :| r in records && r.section == section && K(r.name) == k;
      assert r in before + records;
    }
  }

  lemma LaterSection(m: map<Key, Value>, before: set<ProviderRecord>, after: set<ProviderRecord>, section: Section)
    requires Matches(m, before, section) && before <= after
    requires forall r :: r in after && r.section == section ==> r in before
    ensures Matches(m, after, section)
  {
    forall k | k in m && Stored(m[k]) ensures exists r :: r in after && r.section == section && K(r.name) == k {
      var r :| r in before && r.section == section && K(r.name) == k;
      assert r in after;
    }
  }

  /** Main result. The records that go into the bundle are those of the remote and local
      providers of the compiled document: each describes one, and each of those has one. */
  lemma CompiledProvidersMatch(p: Policy, host: Host, doc: Document, o: Overrides, section: Section)
    requires CompileWith(p, host, doc, o).Ok?
    ensures var c := CompileWith(p, host, doc, o).value;
            Matches(SectionEntries(c.document, section), c.providers, section)
  {
    var root := host.root.value;
    var e0 := Effective(Override(StripMapping(doc, p.top), o).value, {});
    var e1 := ClassifySection(host, root, e0, Proxy).value;
    SectionMatches(host, root, e0, Proxy);
    SectionMatches(host, root, e1, Rule);
    var e2 := ClassifySection(host, root, e1, Rule).value;
    assert SectionEntries(e2.document, Proxy) == SectionEntries(e1.document, Proxy);
    LaterSection(SectionEntries(e1.document, Proxy), e1.providers, e2.providers, Proxy);
  }

  // ---------------------------------------------------------------------------
  // The compiler's own values
  // ---------------------------------------------------------------------------

  const WRITTEN: set<string> :=
    {"rules", "mode", "allow-lan", "ipv6", "geo-auto-update", "external-controller-unix", "secret", "tun", "sniffer"}

  lemma BaselineWrites(rules: seq<string>, auth: Authoritative, k: Key)
    ensures var top := Baseline(rules, auth).top;
            k in top <==> k.StringKey? && k.s in WRITTEN
    ensures Separate(Baseline(rules, auth))
  {
  }

  /** A user field that compilation does not write survives whole, and no other appears. */
  lemma UserFieldsSurvive(p: Policy, host: Host, doc: Document, rules: seq<string>, auth: Authoritative,
                          referencesOk: bool, k: Key, below: seq<Step>)
    requires WellFormedFields(p.top) && Compile(p, host, doc, rules, auth, referencesOk).Ok?
    requires !(k.StringKey? && (k.s in WRITTEN || k.s in {"dns", "proxy-providers", "rule-providers"}))
    ensures Survives(p, doc, Compile(p, host, doc, rules, auth, referencesOk).value.document, [Field(k)] + below)
  {
    var path := [Field(k)] + below;
    assert path[0] == Field(k);
    BaselineWrites(rules, auth, k);
    CompiledByPath(p, host, doc, Baseline(rules, auth), path);
  }

  lemma CompiledEntry(p: Policy, host: Host, doc: Document, o: Overrides, k: Key)
    requires WellFormedFields(p.top) && Separate(o) && CompileWith(p, host, doc, o).Ok? && k in o.top
    ensures var d := CompileWith(p, host, doc, o).value.document;
            k in d && d[k] == o.top[k]
  {
    CompiledByPath(p, host, doc, o, [Field(k)]);
    LookupField(CompileWith(p, host, doc, o).value.document, k);
    LookupField(Alone(o), k);
  }

  /** The compiled rules are the given rules, in order. */
  lemma CompiledRules(p: Policy, host: Host, doc: Document, rules: seq<string>, auth: Authoritative,
                      referencesOk: bool)
    requires WellFormedFields(p.top) && Compile(p, host, doc, rules, auth, referencesOk).Ok?
    ensures var d := Compile(p, host, doc, rules, auth, referencesOk).value.document;
            K("rules") in d && d[K("rules")].Sequence? && |d[K("rules")].items| == |rules| &&
            forall i :: 0 <= i < |rules| ==> d[K("rules")].items[i] == Text(rules[i])
  {
    BaselineWrites(rules, auth, K("rules"));
    CompiledEntry(p, host, doc, Baseline(rules, auth), K("rules"));
    assert Dictated(rules, auth)[K("rules")] == RulesValue(rules);
  }

  lemma LookupField(d: Document, k: Key)
    ensures Lookup(Mapping(d), [Field(k)]) == if k in d then Some(d[k]) else None
  {
    assert [Field(k)][1..] == [];
  }
}
