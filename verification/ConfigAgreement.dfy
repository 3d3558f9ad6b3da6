/** The compiler and the privileged checker agree. */
module ConfigAgreement {
  import opened Common
  import opened Strings
  import opened ConfigSchema
  import opened ConfigStrip
  import opened ConfigCompile

  // ---------------------------------------------------------------------------
  // Policies the compiler can write under
  // ---------------------------------------------------------------------------

  ghost predicate Tolerates(f: Fields, written: map<Key, Value>) {
    forall name :: name in f.of && K(name) in written ==> AbsentNode(written[K(name)], f.of[name])
  }

  ghost predicate ProviderSchema(s: Schema) {
    s.NamedMap? && s.value.Discriminated? && s.value.discriminator == "type" &&
    s.value.variants.Keys <= {"http", "file", "inline"} &&
    ("path" in s.value.common.of ==> !s.value.common.of["path"].ManagedDrop?) &&
    (forall x :: x in s.value.variants && "path" in s.value.variants[x].of ==>
       !s.value.variants[x].of["path"].ManagedDrop?)
  }

  ghost predicate HasProviderSchema(f: Fields, section: Section) {
    SectionKey(section) in f.of && ProviderSchema(f.of[SectionKey(section)])
  }

  /** No written key is dropped, and the provider sections have provider shape. */
  ghost predicate Supports(p: Policy, o: Overrides) {
    WellFormedFields(p.top) && Tolerates(p.top, o.top) && K("dns") !in o.top &&
    ("dns" in p.top.of ==>
       p.top.of["dns"].ManagedReplace? ||
       (p.top.of["dns"].MappingOf? && Tolerates(p.top.of["dns"].fields, o.dns))) &&
    HasProviderSchema(p.top, Proxy) && HasProviderSchema(p.top, Rule) &&
    K(SectionKey(Proxy)) !in o.top && K(SectionKey(Rule)) !in o.top
  }

  /** A policy the compiler can work under, whatever rules and endpoint it is given. */
  ghost predicate CompilerPolicy(p: Policy) {
    forall rules, auth :: Supports(p, Baseline(rules, auth))
  }

  // ---------------------------------------------------------------------------
  // One provider
  // ---------------------------------------------------------------------------

  ghost predicate Rewritable(v: Value, s: Schema) {
    s.NamedMap? && ProviderSchema(s) && ValidNode(v, s.value) && AbsentNode(v, s.value)
  }

  lemma TypeIsKnown(v: Value, s: Schema)
    requires s.NamedMap? && ProviderSchema(s) && ValidNode(v, s.value)
    ensures v.Mapping? && TextAt(v.entries, "type").Some?
    ensures TextAt(v.entries, "type").value in {"http", "file", "inline"}
  {
  }

  lemma RemotePathIsNormal(host: Host, section: Section, name: string, url: string)
    requires host.Faithful()
    ensures NormalRelative(RemotePath(host, section, name, url))
    ensures SlashForm(RemotePath(host, section, name, url)) == RemotePath(host, section, name, url)
  {
    var digest := host.sha256(Directory(section) + "\0" + name + "\0" + url);
    assert NormalName(digest) && '\\' !in digest;
    ThreeNames("providers", Directory(section), digest + ".yaml");
  }

  lemma ThreeNames(a: string, b: string, c: string)
    requires NormalNames([a, b, c]) && '\\' !in a && '\\' !in b && '\\' !in c
    ensures NormalRelative(Join([a, b, c], '/')) && '\\' !in Join([a, b, c], '/')
  {
    JoinedNamesAreNormal([a, b, c]);
    assert [a, b, c][1..] == [b, c] && [b, c][1..] == [c];
    assert Join([b, c], '/') == b + ['/'] + c;
    assert Join([a, b, c], '/') == a + ['/'] + Join([b, c], '/');
  }

  lemma LocalPathIsNormal(host: Host, root: seq<string>, raw: string)
    requires host.Faithful() && ResolveLocal(host, root, raw).Some?
    ensures NormalRelative(ResolveLocal(host, root, raw).value.1)
  {
    var (source, path) := ResolveLocal(host, root, raw).value;
    JoinedNamesAreNormal(source[|root|..]);
  }

  /** Only a local provider whose slash form is not a listed file fails the path check. */
  ghost predicate Listed(c: Classified, files: set<string>) {
    c.record.Some? && c.record.value.kind.Local? ==> SlashForm(c.record.value.relative) in files
  }

  ghost predicate GoodOutcome(r: Result<Classified, Failure>, section: Section, s: Schema, files: set<string>)
    requires s.NamedMap?
  {
    r != Err(Panicked) &&
    (r.Ok? ==>
      AbsentNode(r.value.value, s.value) &&
      (ProviderPathOk(r.value.value, files) <==> Listed(r.value, files)) &&
      (r.value.record.Some? ==>
        r.value.record.value.section == section &&
        (r.value.record.value.kind.Local? ==> NormalRelative(r.value.record.value.relative))))
  }

  lemma ClassifiedPath(host: Host, root: seq<string>, section: Section, k: Key, v: Value, s: Schema, files: set<string>)
    requires host.Faithful() && k.StringKey? && Rewritable(v, s)
    requires forall f :: f in files ==> NormalRelative(f)
    ensures var r := ClassifyProvider(host, root, section, k, v);
            r.Ok? ==> (ProviderPathOk(r.value.value, files) <==> Listed(r.value, files))
  {
    TypeIsKnown(v, s);
    if ClassifyProvider(host, root, section, k, v).Ok? && TextAt(v.entries, "type").value == "http" {
      RemotePathIsNormal(host, section, k.s, TextAt(v.entries, "url").value);
    }
  }

  /** Rewriting the path of a stripped provider leaves no managed-drop field behind. */
  lemma ClassifiedAbsent(host: Host, root: seq<string>, section: Section, k: Key, v: Value, s: Schema)
    requires Rewritable(v, s) && ClassifyProvider(host, root, section, k, v).Ok?
    ensures AbsentNode(ClassifyProvider(host, root, section, k, v).value.value, s.value)
  {
    TypeIsKnown(v, s);
    var r := ClassifyProvider(host, root, section, k, v).value.value;
    assert r.Mapping? && K("type") in r.entries && r.entries[K("type")] == v.entries[K("type")];
    assert forall key :: key in r.entries && key != K("path") ==> key in v.entries && r.entries[key] == v.entries[key];
    if K("path") in r.entries {
      assert r.entries[K("path")].Text?;
      assert forall x: Schema :: !x.ManagedDrop? ==> AbsentNode(r.entries[K("path")], x);
    }
  }

  lemma ClassifiedGood(host: Host, root: seq<string>, section: Section, k: Key, v: Value, s: Schema, files: set<string>)
    requires host.Faithful() && k.StringKey? && Rewritable(v, s)
    requires forall f :: f in files ==> NormalRelative(f)
    ensures GoodOutcome(ClassifyProvider(host, root, section, k, v), section, s, files)
  {
    TypeIsKnown(v, s);
    ClassifiedPath(host, root, section, k, v, s, files);
    var r := ClassifyProvider(host, root, section, k, v);
    if r.Ok? {
      ClassifiedAbsent(host, root, section, k, v, s);
      if TextAt(v.entries, "type").value == "file" {
        LocalPathIsNormal(host, root, TextAt(v.entries, "path").value);
      }
    }
  }

  // ---------------------------------------------------------------------------
  // One section
  // ---------------------------------------------------------------------------

  /** The section is fit for classification: valid, stripped, of provider shape. */
  ghost predicate SectionReady(doc: Document, p: Policy, section: Section) {
    var name := SectionKey(section);
    HasProviderSchema(p.top, section) &&
    (K(name) in doc ==> ValidNode(doc[K(name)], p.top.of[name]) && AbsentNode(doc[K(name)], p.top.of[name]))
  }

  ghost predicate LocalsListed(providers: set<ProviderRecord>, section: Section, files: set<string>) {
    forall r :: r in providers && r.section == section && r.kind.Local? ==> SlashForm(r.relative) in files
  }

  ghost predicate LocalsNormal(providers: set<ProviderRecord>) {
    forall r :: r in providers && r.kind.Local? ==> NormalRelative(r.relative)
  }

  lemma OutcomesMeanListed(o: Outcomes, section: Section, s: Schema, files: set<string>)
    requires s.NamedMap? && AllClassified(o)
    requires forall k :: k in o ==> GoodOutcome(o[k], section, s, files)
    ensures (forall k :: k in o ==> ProviderPathOk(Rewritten(o)[k], files)) <==>
            LocalsListed(Records(o), section, files)
    ensures LocalsNormal(Records(o)) && forall r :: r in Records(o) ==> r.section == section
  {
    if LocalsListed(Records(o), section, files) {
      forall k | k in o ensures Listed(o[k].value, files) {
        if o[k].value.record.Some? {
          assert o[k].value.record.value in Records(o);
        }
      }
    }
    if forall k :: k in o ==> ProviderPathOk(Rewritten(o)[k], files) {
      forall r | r in Records(o) && r.kind.Local? ensures SlashForm(r.relative) in files {
        var k :| k in o && o[k].value.record == Some(r);
        assert ProviderPathOk(Rewritten(o)[k], files);
      }
    }
  }

  /** What one section contributes, relative to the state before it. */
  ghost predicate SectionDone(before: Effective, after: Effective, p: Policy, section: Section, files: set<string>) {
    var at := K(SectionKey(section));
    && HasProviderSchema(p.top, section)
    && after.document - {at} == before.document - {at}
    && (at in after.document ==> AbsentNode(after.document[at], p.top.of[at.s]))
    && before.providers <= after.providers
    && (forall x :: x in after.providers - before.providers ==> x.section == section)
    && (LocalsNormal(before.providers) ==> LocalsNormal(after.providers))
    && (SectionPathsOk(after.document, section, files) <==> LocalsListed(after.providers, section, files))
  }

  lemma SectionOutcomes(host: Host, root: seq<string>, e: Effective, p: Policy, section: Section, files: set<string>)
    requires host.Faithful() && SectionReady(e.document, p, section)
    requires forall f :: f in files ==> NormalRelative(f)
    requires K(SectionKey(section)) in e.document
    ensures var at := K(SectionKey(section));
            e.document[at].Mapping? &&
            var o := ClassifyAll(host, root, section, e.document[at].entries);
            forall k :: k in o ==> k.StringKey? && GoodOutcome(o[k], section, p.top.of[at.s], files)
  {
    var at := K(SectionKey(section));
    var m := e.document[at].entries;
    var o := ClassifyAll(host, root, section, m);
    forall k | k in o ensures k.StringKey? && GoodOutcome(o[k], section, p.top.of[at.s], files) {
      ClassifiedGood(host, root, section, k, m[k], p.top.of[at.s], files);
    }
  }

  lemma ClassifySectionFacts(host: Host, root: seq<string>, e: Effective, p: Policy, section: Section,
                             files: set<string>)
    requires host.Faithful() && SectionReady(e.document, p, section)
    requires forall f :: f in files ==> NormalRelative(f)
    requires forall r :: r in e.providers ==> r.section != section
    ensures ClassifySection(host, root, e, section) != Err(Panicked)
    ensures ClassifySection(host, root, e, section).Ok? ==>
              SectionDone(e, ClassifySection(host, root, e, section).value, p, section, files)
  {
    var at := K(SectionKey(section));
    if at in e.document {
      SectionOutcomes(host, root, e, p, section, files);
      var o := ClassifyAll(host, root, section, e.document[at].entries);
      if AllClassified(o) {
        OutcomesMeanListed(o, section, p.top.of[at.s], files);
        assert ClassifySection(host, root, e, section) ==
          Ok(Effective(e.document[at := Mapping(Rewritten(o))], e.providers + Records(o)));
        RewrittenSectionDone(e, o, p, section, files);
      }
    }
  }

  lemma RewrittenSectionDone(e: Effective, o: Outcomes, p: Policy, section: Section, files: set<string>)
    requires HasProviderSchema(p.top, section) && AllClassified(o)
    requires forall r :: r in e.providers ==> r.section != section
    requires forall k :: k in o ==> k.StringKey? && GoodOutcome(o[k], section, p.top.of[SectionKey(section)], files)
    requires (forall k :: k in o ==> ProviderPathOk(Rewritten(o)[k], files)) <==>
            LocalsListed(Records(o), section, files)
    requires LocalsNormal(Records(o)) && forall r :: r in Records(o) ==> r.section == section
    ensures SectionDone(e, Effective(e.document[K(SectionKey(section)) := Mapping(Rewritten(o))],
                                     e.providers + Records(o)),
                        p, section, files)
  {
    var at := K(SectionKey(section));
    var doc := e.document[at := Mapping(Rewritten(o))];
    assert doc - {at} == e.document - {at};
    assert AbsentNode(doc[at], p.top.of[at.s]);
  }

  // ---------------------------------------------------------------------------
  // The whole document
  // ---------------------------------------------------------------------------

  /** Stripping and overriding leave no managed-drop field anywhere. */
  lemma OverriddenAbsent(p: Policy, stripped: Document, o: Overrides)
    requires Supports(p, o) && AbsentMapping(stripped, p.top) && Override(stripped, o).Ok?
    ensures AbsentMapping(Override(stripped, o).value, p.top)
  {
    var r := Override(stripped, o).value;
    forall field | field in p.top.of && K(field) in r
      ensures AbsentNode(r[K(field)], p.top.of[field])
    {
      if field == "dns" {
        DnsAbsent(p, stripped, o);
      }
    }
  }

  lemma DnsAbsent(p: Policy, stripped: Document, o: Overrides)
    requires Supports(p, o) && AbsentMapping(stripped, p.top) && Override(stripped, o).Ok? && "dns" in p.top.of
    ensures AbsentNode(Override(stripped, o).value[K("dns")], p.top.of["dns"])
  {
    var s := p.top.of["dns"];
    if s.MappingOf? {
      var after := Override(stripped, o).value[K("dns")].entries;
      assert K("dns") in stripped ==> AbsentMapping(stripped[K("dns")].entries, s.fields);
      assert AbsentMapping(after, s.fields);
    }
  }

  /** Everything that was dictated is in the result. */
  ghost predicate Carries(doc: Document, o: Overrides) {
    (forall k :: k in o.top ==> k in doc && doc[k] == o.top[k]) &&
    K("dns") in doc && doc[K("dns")].Mapping? &&
    (forall k :: k in o.dns ==> k in doc[K("dns")].entries && doc[K("dns")].entries[k] == o.dns[k])
  }

  lemma DictatedValues(rules: seq<string>, auth: Authoritative)
    ensures var top := Dictated(rules, auth);
            Holds(top, "mode", Text("rule")) && Holds(top, "allow-lan", Boolean(false)) &&
            Holds(top, "ipv6", Boolean(true)) && Holds(top, "geo-auto-update", Boolean(false)) &&
            Holds(top, "external-controller-unix", Text(auth.controller)) && Holds(top, "secret", Text(auth.secret)) &&
            Holds(top, "tun", TUN) && K("rules") in top && top[K("rules")].Sequence? && Holds(top, "sniffer", SNIFFER)
  {
  }

  lemma HeldIsCarried(doc: Document, top: Document, name: string, v: Value)
    requires Holds(top, name, v) && forall k :: k in top ==> k in doc && doc[k] == top[k]
    ensures Holds(doc, name, v)
  {
  }

  lemma BaselineCarriesAuthority(doc: Document, rules: seq<string>, auth: Authoritative)
    requires Carries(doc, Baseline(rules, auth))
    ensures CarriesAuthority(doc, auth)
  {
    var top := Dictated(rules, auth);
    DictatedValues(rules, auth);
    forall name, v | Holds(top, name, v) ensures Holds(doc, name, v) {
      HeldIsCarried(doc, top, name, v);
    }
  }

  lemma SectionsReady(p: Policy, doc: Document, o: Overrides, section: Section)
    requires Supports(p, o) && ValidMapping(doc, p.top, p.additional) && Override(StripMapping(doc, p.top), o).Ok?
    ensures SectionReady(Override(StripMapping(doc, p.top), o).value, p, section)
  {
    var stripped := StripMapping(doc, p.top);
    StripMappingKeepsValid(doc, p.top, p.additional);
    StripMappingPassesAbsent(doc, p.top, p.additional);
    var at := K(SectionKey(section));
    var r := Override(stripped, o).value;
    assert at in r ==> at in stripped && r[at] == stripped[at];
  }

  lemma UnchangedOutside(before: Document, after: Document, at: Key, k: Key)
    requires after - {at} == before - {at} && k != at
    ensures k in before <==> k in after
    ensures k in before ==> before[k] == after[k]
  {
    assert k in before <==> k in before - {at};
    assert k in after <==> k in after - {at};
  }

  /** Rewriting a section keeps the rest of the check passing. */
  lemma RestSurvives(before: Effective, after: Effective, p: Policy, section: Section, files: set<string>, o: Overrides)
    requires SectionDone(before, after, p, section, files) && Supports(p, o)
    requires AbsentMapping(before.document, p.top) && Carries(before.document, o)
    ensures AbsentMapping(after.document, p.top) && Carries(after.document, o)
  {
    var at := K(SectionKey(section));
    forall k | k != at
      ensures k in before.document <==> k in after.document
      ensures k in before.document ==> before.document[k] == after.document[k]
    {
      UnchangedOutside(before.document, after.document, at, k);
    }
    assert at !in o.top && at != K("dns");
  }

  ghost predicate AllListed(providers: set<ProviderRecord>, files: set<string>) {
    forall r :: r in providers && r.kind.Local? ==> SlashForm(r.relative) in files
  }

  lemma FinishedAgrees(p: Policy, host: Host, root: seq<string>, doc: Document, o: Overrides, files: set<string>)
    requires host.Faithful() && Supports(p, o) && (forall f :: f in files ==> NormalRelative(f))
    requires SectionReady(doc, p, Proxy) && SectionReady(doc, p, Rule)
    requires AbsentMapping(doc, p.top) && Carries(doc, o)
    ensures var c := Finish(p, host, root, doc);
            c != Err(Panicked) &&
            (c.Ok? ==>
              var d := c.value.document;
              ValidMapping(d, p.top, p.additional) && AbsentMapping(d, p.top) && Carries(d, o) &&
              LocalsNormal(c.value.providers) &&
              (ProviderPathsOk(d, files) <==> AllListed(c.value.providers, files)))
  {
    var e0 := Effective(doc, {});
    ClassifySectionFacts(host, root, e0, p, Proxy, files);
    var r1 := ClassifySection(host, root, e0, Proxy);
    if r1.Ok? {
      UnchangedOutside(doc, r1.value.document, K(SectionKey(Proxy)), K(SectionKey(Rule)));
      ClassifySectionFacts(host, root, r1.value, p, Rule, files);
      var r2 := ClassifySection(host, root, r1.value, Rule);
      if r2.Ok? {
        RestSurvives(e0, r1.value, p, Proxy, files, o);
        RestSurvives(r1.value, r2.value, p, Rule, files, o);
        UnchangedOutside(r1.value.document, r2.value.document, K(SectionKey(Rule)), K(SectionKey(Proxy)));
        SectionsTogether(r1.value, r2.value, files);
        assert SectionPathsOk(r2.value.document, Proxy, files) == SectionPathsOk(r1.value.document, Proxy, files);
      }
    }
  }

  lemma SectionsTogether(e1: Effective, e2: Effective, files: set<string>)
    requires e1.providers <= e2.providers
    requires forall r :: r in e2.providers - e1.providers ==> r.section == Rule
    ensures AllListed(e2.providers, files) <==>
              LocalsListed(e1.providers, Proxy, files) && LocalsListed(e2.providers, Rule, files)
  {
    forall r | r in e2.providers ensures r.section == Proxy ==> r in e1.providers {
      assert r !in e1.providers ==> r in e2.providers - e1.providers;
    }
  }

  lemma OverriddenCarries(stripped: Document, o: Overrides)
    requires Override(stripped, o).Ok? && K("dns") !in o.top
    ensures Carries(Override(stripped, o).value, o)
  {
  }

  lemma CompiledAgrees(p: Policy, host: Host, doc: Document, o: Overrides, files: set<string>)
    requires host.Faithful() && Supports(p, o) && (forall f :: f in files ==> NormalRelative(f))
    ensures var c := CompileWith(p, host, doc, o);
            c != Err(Panicked) &&
            (c.Ok? ==>
              var d := c.value.document;
              ValidMapping(d, p.top, p.additional) && AbsentMapping(d, p.top) && Carries(d, o) &&
              LocalsNormal(c.value.providers) &&
              (ProviderPathsOk(d, files) <==> AllListed(c.value.providers, files)))
  {
    if ValidMapping(doc, p.top, p.additional) && host.root.Some? {
      var stripped := StripMapping(doc, p.top);
      if Override(stripped, o).Ok? {
        StripMappingPassesAbsent(doc, p.top, p.additional);
        OverriddenAbsent(p, stripped, o);
        OverriddenCarries(stripped, o);
        SectionsReady(p, doc, o, Proxy);
        SectionsReady(p, doc, o, Rule);
        FinishedAgrees(p, host, host.root.value, Override(stripped, o).value, o, files);
      }
    }
  }

  /** Main result. Under a well-formed policy, compilation never panics, and a compiled
      configuration is accepted by the privileged check, with the same authority, exactly
      when the slash form of every local provider path is itself a listed file. */
  lemma CompilerAndCheckerAgree(p: Policy, host: Host, doc: Document, rules: seq<string>, auth: Authoritative,
                                referencesOk: bool, files: set<string>)
    requires CompilerPolicy(p) && host.Faithful()
    requires forall f :: f in files ==> NormalRelative(f)
    ensures var c := Compile(p, host, doc, rules, auth, referencesOk);
            c != Err(Panicked) &&
            (c.Ok? ==> (PrivilegedAccepts(p, c.value.document, auth, files) <==> AllListed(c.value.providers, files)))
  {
    var o := Baseline(rules, auth);
    CompiledAgrees(p, host, doc, o, files);
    var c := Compile(p, host, doc, rules, auth, referencesOk);
    if c.Ok? {
      BaselineCarriesAuthority(c.value.document, rules, auth);
    }
  }

  /** With the manifest's own file list, paths free of backslashes always pass. */
  lemma BackslashFreeConfigurationsPass(p: Policy, host: Host, doc: Document, rules: seq<string>, auth: Authoritative,
                                        referencesOk: bool)
    requires CompilerPolicy(p) && host.Faithful()
    ensures var c := Compile(p, host, doc, rules, auth, referencesOk);
            c.Ok? && (forall r :: r in c.value.providers && r.kind.Local? ==> '\\' !in r.relative) ==>
            PrivilegedAccepts(p, c.value.document, auth, LocalFiles(c.value.providers))
  {
    var c := Compile(p, host, doc, rules, auth, referencesOk);
    if c.Ok? {
      CompiledAgrees(p, host, doc, Baseline(rules, auth), {});
      CompilerAndCheckerAgree(p, host, doc, rules, auth, referencesOk, LocalFiles(c.value.providers));
    }
  }
}
