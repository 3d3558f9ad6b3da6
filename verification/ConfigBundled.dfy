/** The policy shipped with the product (`fixtures/mihomo/v1.19.28/config-policy.yaml`)
    and the one way its compiled output can fail the privileged check. */
module ConfigBundled {
  import opened Common
  import opened Strings
  import opened ConfigSchema
  import opened ConfigStrip
  import opened ConfigCompile
  import opened ConfigAgreement

  const DROPPED: set<string> := {
    "authentication", "bind-address", "external-controller", "external-controller-cors",
    "external-controller-pipe", "external-controller-routing-mark", "external-controller-tls",
    "external-doh-server", "external-ui", "external-ui-name", "external-ui-url", "inbound-mptcp",
    "inbound-tfo", "interface-name", "iptables", "lan-allowed-ips", "lan-disallowed-ips", "listeners",
    "mixed-port", "port", "redir-port", "skip-auth-prefixes", "socks-port", "ss-config", "tproxy-port",
    "tuic-server", "tunnels", "vmess-config"}

  const REPLACED: set<string> := {
    "allow-lan", "external-controller-unix", "geo-auto-update", "ipv6", "mode", "rules", "secret",
    "sniffer", "tun"}

  const DNS_DROPPED: set<string> := {"listen", "listen-routing-mark"}

  const DNS_REPLACED: set<string> := {
    "enable", "enhanced-mode", "fallback", "fake-ip-filter", "fake-ip-filter-mode", "fake-ip-range",
    "fake-ip-range6", "ipv6"}

  function Marked(dropped: set<string>, replaced: set<string>): map<string, Schema> {
    (map k | k in dropped :: ManagedDrop) + (map k | k in replaced :: ManagedReplace)
  }

  const STRINGS: Schema := SequenceOf(StringNode)

  const PROXY: Schema :=
    MappingOf(Fields(map["name" := StringNode, "type" := StringNode]), ["name", "type"], CorePassthrough)

  const GROUP: Schema :=
    MappingOf(Fields(map["name" := StringNode, "type" := StringNode, "proxies" := STRINGS, "use" := STRINGS]),
              ["name", "type"], CorePassthrough)

  function ProviderCommon(payload: Schema): Fields {
    Fields(map["payload" := payload, "type" := StringNode])
  }

  function ProviderVariants(): map<string, Fields> {
    map["file" := Fields(map["path" := StringNode]),
        "http" := Fields(map["path" := StringNode, "url" := StringNode]),
        "inline" := Fields(map[])]
  }

  function Provider(payload: Schema): Schema {
    Discriminated("type", ProviderCommon(payload), ProviderVariants(), ["type"],
                  map["file" := ["path"], "http" := ["url"], "inline" := ["payload"]], CorePassthrough)
  }

  function Sections(): map<string, Schema> {
    map["dns" := MappingOf(Fields(Marked(DNS_DROPPED, DNS_REPLACED)), [], CorePassthrough),
        "ntp" := MappingOf(Fields(map["write-to-system" := ManagedDrop]), [], CorePassthrough),
        "proxies" := SequenceOf(PROXY),
        "proxy-groups" := SequenceOf(GROUP),
        "proxy-providers" := NamedMap(Provider(SequenceOf(PROXY))),
        "rule-providers" := NamedMap(Provider(STRINGS)),
        "sub-rules" := NamedMap(STRINGS)]
  }

  function Bundled(): Policy {
    Policy(Fields(Marked(DROPPED, REPLACED) + Sections()), CorePassthrough)
  }

  /** Fields without markers are well formed, whatever is required of them. */
  ghost predicate Plain(f: Fields) {
    forall k :: k in f.of ==> !Managed(f.of[k]) && WellFormed(f.of[k])
  }

  lemma PlainDiscriminated(s: Schema)
    requires s.Discriminated? && Plain(s.common) && StringIfKnown(s.common, s.discriminator)
    requires forall x :: x in s.variants ==>
               Plain(s.variants[x]) && s.common.of.Keys !! s.variants[x].of.Keys && s.discriminator !in s.variants[x].of
    ensures WellFormed(s)
  {
  }

  lemma ProviderShape(payload: Schema)
    requires WellFormed(payload) && !Managed(payload)
    ensures var c := ProviderCommon(payload);
            Plain(c) && StringIfKnown(c, "type") && c.of.Keys == {"payload", "type"}
    ensures var v := ProviderVariants();
            v.Keys == {"file", "http", "inline"} &&
            forall x :: x in v ==> Plain(v[x]) && v[x].of.Keys <= {"path", "url"}
  {
  }

  lemma ProviderWellFormed(payload: Schema)
    requires WellFormed(payload) && !Managed(payload)
    ensures WellFormed(NamedMap(Provider(payload))) && ProviderSchema(NamedMap(Provider(payload)))
  {
    ProviderShape(payload);
    assert {"payload", "type"} !! {"path", "url"};
    ProviderFromShape(Provider(payload));
  }

  lemma ProviderFromShape(s: Schema)
    requires s.Discriminated? && s.discriminator == "type"
    requires Plain(s.common) && StringIfKnown(s.common, "type") && s.common.of.Keys == {"payload", "type"}
    requires s.variants.Keys == {"file", "http", "inline"}
    requires forall x :: x in s.variants ==> Plain(s.variants[x]) && s.variants[x].of.Keys <= {"path", "url"}
    requires {"payload", "type"} !! {"path", "url"}
    ensures WellFormed(NamedMap(s)) && ProviderSchema(NamedMap(s))
  {
    assert "type" in {"payload", "type"};
    PlainDiscriminated(s);
  }

  lemma MarkedWellFormed(dropped: set<string>, replaced: set<string>)
    ensures WellFormedFields(Fields(Marked(dropped, replaced)))
  {
  }

  lemma PlainMapping(f: Fields, required: seq<string>)
    requires Plain(f)
    ensures WellFormed(MappingOf(f, required, CorePassthrough))
  {
  }

  lemma RecordsWellFormed()
    ensures WellFormed(PROXY) && WellFormed(GROUP) && WellFormed(STRINGS)
  {
    assert Plain(PROXY.fields);
    PlainMapping(PROXY.fields, PROXY.required);
    assert Plain(GROUP.fields);
    PlainMapping(GROUP.fields, GROUP.required);
  }

  lemma MarkedSections()
    ensures WellFormed(MappingOf(Fields(Marked(DNS_DROPPED, DNS_REPLACED)), [], CorePassthrough))
    ensures WellFormed(MappingOf(Fields(map["write-to-system" := ManagedDrop]), [], CorePassthrough))
  {
    MarkedWellFormed(DNS_DROPPED, DNS_REPLACED);
  }

  lemma PlainSections()
    ensures WellFormed(SequenceOf(PROXY)) && WellFormed(SequenceOf(GROUP)) && WellFormed(NamedMap(STRINGS))
    ensures WellFormed(NamedMap(Provider(SequenceOf(PROXY)))) && WellFormed(NamedMap(Provider(STRINGS)))
  {
    RecordsWellFormed();
    ProviderWellFormed(SequenceOf(PROXY));
    ProviderWellFormed(STRINGS);
  }

  lemma SectionsWellFormed()
    ensures WellFormedFields(Fields(Sections()))
  {
    MarkedSections();
    PlainSections();
    SevenWellFormed(["dns", "ntp", "proxies", "proxy-groups", "proxy-providers", "rule-providers", "sub-rules"],
                    MappingOf(Fields(Marked(DNS_DROPPED, DNS_REPLACED)), [], CorePassthrough),
                    MappingOf(Fields(map["write-to-system" := ManagedDrop]), [], CorePassthrough),
                    SequenceOf(PROXY), SequenceOf(GROUP),
                    NamedMap(Provider(SequenceOf(PROXY))), NamedMap(Provider(STRINGS)), NamedMap(STRINGS));
  }

  lemma SevenWellFormed(k: seq<string>, a: Schema, b: Schema, c: Schema, d: Schema, e: Schema, f: Schema, g: Schema)
    requires |k| == 7
    requires WellFormed(a) && WellFormed(b) && WellFormed(c) && WellFormed(d) && WellFormed(e) && WellFormed(f)
    requires WellFormed(g)
    ensures WellFormedFields(Fields(map[k[0] := a, k[1] := b, k[2] := c, k[3] := d, k[4] := e, k[5] := f, k[6] := g]))
  {
  }

  lemma UnionWellFormed(f: map<string, Schema>, g: map<string, Schema>)
    requires WellFormedFields(Fields(f)) && WellFormedFields(Fields(g))
    ensures WellFormedFields(Fields(f + g))
  {
  }

  lemma SectionLookups()
    ensures var s := Sections();
            s.Keys == {"dns", "ntp", "proxies", "proxy-groups", "proxy-providers", "rule-providers", "sub-rules"} &&
            s["dns"] == MappingOf(Fields(Marked(DNS_DROPPED, DNS_REPLACED)), [], CorePassthrough) &&
            s["proxy-providers"] == NamedMap(Provider(SequenceOf(PROXY))) &&
            s["rule-providers"] == NamedMap(Provider(STRINGS))
  {
  }

  lemma ReplacedIsTolerated(f: Fields, written: map<Key, Value>, replaced: set<string>)
    requires forall k :: k in written ==> k.StringKey? && k.s in replaced
    requires forall name :: name in replaced && name in f.of ==> f.of[name].ManagedReplace?
    ensures Tolerates(f, written)
  {
    forall name | name in f.of && K(name) in written ensures AbsentNode(written[K(name)], f.of[name]) {
      assert name in replaced;
    }
  }

  lemma WrittenNames(rules: seq<string>, auth: Authoritative)
    ensures forall k :: k in Dictated(rules, auth) ==> k.StringKey? && k.s in REPLACED
    ensures forall k :: k in DNS ==> k.StringKey? && k.s in DNS_REPLACED
    ensures REPLACED !! {"dns", "ntp", "proxies", "proxy-groups", "proxy-providers", "rule-providers", "sub-rules"}
  {
  }

  /** What the lemmas above establish about the shipped field tables. */
  ghost predicate Shape(top: map<string, Schema>, sections: map<string, Schema>,
                        replaced: set<string>, dnsReplaced: set<string>)
  {
    WellFormedFields(Fields(top + sections)) &&
    replaced !! sections.Keys && (forall k :: k in replaced && k in top ==> top[k].ManagedReplace?) &&
    SectionKey(Proxy) in sections && ProviderSchema(sections[SectionKey(Proxy)]) &&
    SectionKey(Rule) in sections && ProviderSchema(sections[SectionKey(Rule)]) &&
    "dns" in sections && sections["dns"].MappingOf? &&
    (forall k :: k in dnsReplaced && k in sections["dns"].fields.of ==> sections["dns"].fields.of[k].ManagedReplace?)
  }

  lemma SupportsFromShape(top: map<string, Schema>, sections: map<string, Schema>,
                          replaced: set<string>, dnsReplaced: set<string>, o: Overrides)
    requires Shape(top, sections, replaced, dnsReplaced)
    requires forall k :: k in o.top ==> k.StringKey? && k.s in replaced
    requires forall k :: k in o.dns ==> k.StringKey? && k.s in dnsReplaced
    ensures Supports(Policy(Fields(top + sections), CorePassthrough), o)
  {
    ReplacedIsTolerated(Fields(top + sections), o.top, replaced);
    ReplacedIsTolerated(sections["dns"].fields, o.dns, dnsReplaced);
  }

  lemma ProviderSections(s: map<string, Schema>)
    requires s == Sections()
    ensures SectionKey(Proxy) in s && ProviderSchema(s[SectionKey(Proxy)])
    ensures SectionKey(Rule) in s && ProviderSchema(s[SectionKey(Rule)])
  {
    SectionLookups();
    RecordsWellFormed();
    ProviderWellFormed(SequenceOf(PROXY));
    ProviderWellFormed(STRINGS);
  }

  lemma ShapeFromTables(dropped: set<string>, replaced: set<string>, sections: map<string, Schema>,
                        dnsDropped: set<string>, dnsReplaced: set<string>)
    requires WellFormedFields(Fields(sections)) && replaced !! sections.Keys
    requires SectionKey(Proxy) in sections && ProviderSchema(sections[SectionKey(Proxy)])
    requires SectionKey(Rule) in sections && ProviderSchema(sections[SectionKey(Rule)])
    requires "dns" in sections
    requires sections["dns"] == MappingOf(Fields(Marked(dnsDropped, dnsReplaced)), [], CorePassthrough)
    ensures Shape(Marked(dropped, replaced), sections, replaced, dnsReplaced)
  {
    MarkedWellFormed(dropped, replaced);
    UnionWellFormed(Marked(dropped, replaced), sections);
  }

  lemma BundledShape(sections: map<string, Schema>)
    requires sections == Sections()
    ensures Shape(Marked(DROPPED, REPLACED), sections, REPLACED, DNS_REPLACED)
  {
    SectionsWellFormed();
    SectionLookups();
    ProviderSections(sections);
    WrittenNames([], Authoritative("", ""));
    ShapeFromTables(DROPPED, REPLACED, sections, DNS_DROPPED, DNS_REPLACED);
  }

  /** The shipped policy is one the compiler can work under. */
  lemma BundledIsCompilerPolicy()
    ensures CompilerPolicy(Bundled())
  {
    var top, sections := Marked(DROPPED, REPLACED), Sections();
    BundledShape(sections);
    forall rules, auth ensures Supports(Policy(Fields(top + sections), CorePassthrough), Baseline(rules, auth)) {
      WrittenNames(rules, auth);
      SupportsFromShape(top, sections, REPLACED, DNS_REPLACED, Baseline(rules, auth));
    }
  }

  // ---------------------------------------------------------------------------
  // The failing family: a backslash in a local provider's file name
  // ---------------------------------------------------------------------------

  /** If some local path holds a backslash and its slash form is not the path of another
      local provider, the configuration the Supervisor compiled is refused. */
  lemma UnlistedSlashFormIsRefused(p: Policy, host: Host, doc: Document, rules: seq<string>, auth: Authoritative,
                                   referencesOk: bool, r: ProviderRecord)
    requires CompilerPolicy(p) && host.Faithful()
    requires Compile(p, host, doc, rules, auth, referencesOk).Ok?
    requires var providers := Compile(p, host, doc, rules, auth, referencesOk).value.providers;
             r in providers && r.kind.Local? && SlashForm(r.relative) !in LocalFiles(providers)
    ensures var c := Compile(p, host, doc, rules, auth, referencesOk).value;
            !PrivilegedAccepts(p, c.document, auth, LocalFiles(c.providers))
  {
    var c := Compile(p, host, doc, rules, auth, referencesOk).value;
    CompiledAgrees(p, host, doc, Baseline(rules, auth), {});
    CompilerAndCheckerAgree(p, host, doc, rules, auth, referencesOk, LocalFiles(c.providers));
  }

  const NAME: string := "a\\b"

  function OneFile(): Host {
    Host(Some(["r"]), (p: string) => Some(["r", NAME]), (f: seq<string>) => true, (u: string) => false,
         (s: string) => "0")
  }

  const FILE_PROVIDER: Value := Mapping(map[K("type") := Text("file"), K("path") := Text(NAME)])

  lemma FileVariant(entries: map<Key, Value>, path: string)
    requires entries == map[K("type") := Text("file"), K("path") := Text(path)]
    ensures var s := Provider(STRINGS);
            "file" in s.variants && SelectVariant(entries, "type", s.variants) == Some(s.variants["file"]) &&
            StripMapping(entries, s.common) == entries && StripMapping(entries, s.variants["file"]) == entries
  {
    ProviderShape(STRINGS);
    assert {"payload", "type"} !! {"path", "url"};
  }

  lemma FileProviderStripped(path: string)
    ensures var v := Mapping(map[K("type") := Text("file"), K("path") := Text(path)]);
            StripNode(v, Provider(STRINGS)) == v
  {
    FileVariant(map[K("type") := Text("file"), K("path") := Text(path)], path);
  }

  lemma FileProviderValid(path: string)
    ensures var v := Mapping(map[K("type") := Text("file"), K("path") := Text(path)]);
            ValidNode(v, Provider(STRINGS))
  {
    var v := Mapping(map[K("type") := Text("file"), K("path") := Text(path)]);
    FileVariant(v.entries, path);
    assert HasRequired(v.entries, ["type"]) && HasRequired(v.entries, ["path"]);
  }

  function OneSection(v: Value): Document {
    map[K("rule-providers") := Mapping(map[K("p") := v])]
  }

  /** Rule providers follow `s`, unknown keys pass, and what is dictated may be written. */
  ghost predicate Takes(p: Policy, s: Schema, o: Overrides) {
    && p.additional.CorePassthrough?
    && SectionKey(Rule) in p.top.of && p.top.of[SectionKey(Rule)] == NamedMap(s)
    && (forall k :: k in o.top ==> k.StringKey? && (k.s in p.top.of ==> p.top.of[k.s].ManagedReplace?))
    && (K("dns") !in o.top && K(SectionKey(Rule)) !in o.top && K(SectionKey(Proxy)) !in o.top)
    && ("dns" in p.top.of ==> ValidNode(Mapping(o.dns), p.top.of["dns"]))
  }

  lemma OneSectionValid(p: Policy, s: Schema, doc: Document, v: Value)
    requires p.additional.CorePassthrough? && SectionKey(Rule) in p.top.of && p.top.of[SectionKey(Rule)] == NamedMap(s)
    requires ValidNode(v, s)
    requires K(SectionKey(Rule)) in doc && doc[K(SectionKey(Rule))] == Mapping(map[K("p") := v])
    requires forall k :: k in doc && k != K(SectionKey(Rule)) ==>
               k.StringKey? && (k.s in p.top.of ==> ValidNode(doc[k], p.top.of[k.s]))
    ensures ValidMapping(doc, p.top, p.additional)
  {
    var section := Mapping(map[K("p") := v]);
    assert ValidNode(section, NamedMap(s));
  }

  lemma OneSectionStripped(p: Policy, v: Value, s: Schema)
    requires SectionKey(Rule) in p.top.of && p.top.of[SectionKey(Rule)] == NamedMap(s) && StripNode(v, s) == v
    ensures StripMapping(OneSection(v), p.top) == OneSection(v)
  {
    var m := map[K("p") := v];
    assert StripNode(Mapping(m), NamedMap(s)) == Mapping(m);
  }

  lemma OneSectionOverridden(p: Policy, s: Schema, v: Value, o: Overrides)
    requires Takes(p, s, o)
    ensures var r := Override(OneSection(v), o);
            r.Ok? && K(SectionKey(Rule)) in r.value && r.value[K(SectionKey(Rule))] == Mapping(map[K("p") := v]) &&
            K(SectionKey(Proxy)) !in r.value &&
            forall k :: k in r.value && k != K(SectionKey(Rule)) ==>
              k.StringKey? && (k.s in p.top.of ==> ValidNode(r.value[k], p.top.of[k.s]))
  {
    var d := Override(OneSection(v), o).value;
    forall k | k in d && k != K(SectionKey(Rule))
      ensures k.StringKey? && (k.s in p.top.of ==> ValidNode(d[k], p.top.of[k.s]))
    {
      assert k == K("dns") || k in o.top;
    }
  }

  lemma FileClassified()
    ensures ClassifyProvider(OneFile(), ["r"], Rule, K("p"), FILE_PROVIDER) ==
            Ok(Classified(Mapping(map[K("type") := Text("file"), K("path") := Text("a/b")]),
                          Some(ProviderRecord(Rule, "p", NAME, Local(["r", NAME])))))
  {
    SplitField(NAME, "", '/');
    assert ["r", NAME][1..] == [NAME];
    assert SlashForm(NAME) == "a/b";
    assert ["r"] < ["r", NAME];
    assert ResolveLocal(OneFile(), ["r"], NAME) == Some((["r", NAME], NAME));
    var after := FILE_PROVIDER.entries[K("path") := Text("a/b")];
    assert after == map[K("type") := Text("file"), K("path") := Text("a/b")];
  }

  lemma OneOutcome(host: Host, root: seq<string>, k: Key, v: Value, after: Value, r: ProviderRecord)
    requires ClassifyProvider(host, root, Rule, k, v) == Ok(Classified(after, Some(r)))
    ensures var o := ClassifyAll(host, root, Rule, map[k := v]);
            AllClassified(o) && Rewritten(o) == map[k := after] && Records(o) == {r} &&
            forall x :: x in o ==> o[x] != Err(Panicked)
  {
    var o := ClassifyAll(host, root, Rule, map[k := v]);
    assert k in o && o[k].value.record.value == r;
  }

  lemma OneClassified(p: Policy, host: Host, root: seq<string>, doc: Document, v: Value, after: Value,
                      r: ProviderRecord)
    requires K(SectionKey(Rule)) in doc && doc[K(SectionKey(Rule))] == Mapping(map[K("p") := v])
    requires K(SectionKey(Proxy)) !in doc
    requires ClassifyProvider(host, root, Rule, K("p"), v) == Ok(Classified(after, Some(r)))
    requires ValidMapping(doc[K(SectionKey(Rule)) := Mapping(map[K("p") := after])], p.top, p.additional)
    ensures Finish(p, host, root, doc) ==
            Ok(Effective(doc[K(SectionKey(Rule)) := Mapping(map[K("p") := after])], {r}))
  {
    OneOutcome(host, root, K("p"), v, after, r);
    var e := Effective(doc, {});
    assert ClassifySection(host, root, e, Proxy) == Ok(e);
    var o := ClassifyAll(host, root, Rule, map[K("p") := v]);
    assert {} + Records(o) == {r};
  }

  lemma OneCompiled(p: Policy, s: Schema, host: Host, v: Value, after: Value, r: ProviderRecord, o: Overrides)
    requires host.root.Some? && Takes(p, s, o)
    requires ValidNode(v, s) && StripNode(v, s) == v && ValidNode(after, s)
    requires ClassifyProvider(host, host.root.value, Rule, K("p"), v) == Ok(Classified(after, Some(r)))
    ensures var c := CompileWith(p, host, OneSection(v), o);
            c.Ok? && c.value.providers == {r}
  {
    OneSectionValid(p, s, OneSection(v), v);
    OneSectionStripped(p, v, s);
    OneSectionOverridden(p, s, v, o);
    var d := Override(OneSection(v), o).value;
    OneSectionValid(p, s, d[K(SectionKey(Rule)) := Mapping(map[K("p") := after])], after);
    OneClassified(p, host, host.root.value, d, v, after, r);
  }

  lemma BaselineKeys(rules: seq<string>, auth: Authoritative)
    ensures var top := Dictated(rules, auth);
            K("dns") !in top && K("rule-providers") !in top && K("proxy-providers") !in top &&
            forall k :: k in top ==> k.StringKey?
  {
  }

  lemma TakesFromShape(top: map<string, Schema>, sections: map<string, Schema>, replaced: set<string>,
                       dnsReplaced: set<string>, dns: Fields, s: Schema, o: Overrides)
    requires Shape(top, sections, replaced, dnsReplaced) && sections[SectionKey(Rule)] == NamedMap(s)
    requires sections["dns"] == MappingOf(dns, [], CorePassthrough)
    requires forall k :: k in o.top ==> k.StringKey? && k.s in replaced
    requires forall k :: k in o.dns ==> k.StringKey? && k.s in dnsReplaced
    requires K("dns") !in o.top && K(SectionKey(Rule)) !in o.top && K(SectionKey(Proxy)) !in o.top
    ensures Takes(Policy(Fields(top + sections), CorePassthrough), s, o)
  {
    assert ValidMapping(o.dns, dns, CorePassthrough);
  }

  /** One local provider whose slash form is another file is compiled, and refused. */
  lemma OneRefused(p: Policy, s: Schema, host: Host, v: Value, after: Value, r: ProviderRecord, auth: Authoritative)
    requires CompilerPolicy(p) && host.Faithful() && host.root.Some? && ValidAuthoritative(auth)
    requires Takes(p, s, Baseline([], auth))
    requires ValidNode(v, s) && StripNode(v, s) == v && ValidNode(after, s)
    requires ClassifyProvider(host, host.root.value, Rule, K("p"), v) == Ok(Classified(after, Some(r)))
    requires r.kind.Local? && SlashForm(r.relative) !in LocalFiles({r})
    ensures var c := Compile(p, host, OneSection(v), [], auth, true);
            c.Ok? && !PrivilegedAccepts(p, c.value.document, auth, LocalFiles(c.value.providers))
  {
    OneCompiled(p, s, host, v, after, r, Baseline([], auth));
    UnlistedSlashFormIsRefused(p, host, OneSection(v), [], auth, true, r);
  }

  /** What the shipped policy takes. */
  lemma BundledTakes(rules: seq<string>, auth: Authoritative)
    ensures Takes(Bundled(), Provider(STRINGS), Baseline(rules, auth))
  {
    var top, sections := Marked(DROPPED, REPLACED), Sections();
    BundledShape(sections);
    SectionLookups();
    WrittenNames(rules, auth);
    BaselineKeys(rules, auth);
    TakesFromShape(top, sections, REPLACED, DNS_REPLACED, Fields(Marked(DNS_DROPPED, DNS_REPLACED)), Provider(STRINGS),
                   Baseline(rules, auth));
  }

  lemma OneFileIsFaithful()
    ensures OneFile().Faithful()
  {
    assert NormalName("r") && NormalName(NAME) && NormalName("0");
    assert NormalNames(["r", NAME]);
  }

  /** A concrete refusal under the shipped policy: one local provider, stored in a file named
      `a\b`, compiles, and the privileged check refuses the result. */
  lemma BackslashFileIsRefused()
    ensures var auth := Authoritative("/s", "x");
            var c := Compile(Bundled(), OneFile(), OneSection(FILE_PROVIDER), [], auth, true);
            CompilerPolicy(Bundled()) && OneFile().Faithful() &&
            c.Ok? && !PrivilegedAccepts(Bundled(), c.value.document, auth, LocalFiles(c.value.providers))
  {
    var auth := Authoritative("/s", "x");
    var after := Mapping(map[K("type") := Text("file"), K("path") := Text("a/b")]);
    var r := ProviderRecord(Rule, "p", NAME, Local(["r", NAME]));
    FileProviderValid(NAME);
    FileProviderStripped(NAME);
    FileProviderValid("a/b");
    FileClassified();
    BundledTakes([], auth);
    BundledIsCompilerPolicy();
    OneFileIsFaithful();
    NotListed(r);
    OneRefused(Bundled(), Provider(STRINGS), OneFile(), FILE_PROVIDER, after, r, auth);
  }

  lemma NotListed(r: ProviderRecord)
    requires r.relative == NAME
    ensures SlashForm(r.relative) !in LocalFiles({r})
  {
    assert SlashForm(NAME)[1] == '/' && NAME[1] == '\\';
  }
}
