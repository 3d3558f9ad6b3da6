/** The Supervisor's compiler and the root service's independent check of its output
    (`ConfigCompiler::compile` and `validate_privileged_candidate` in `src/config.rs`).

    YAML printing and parsing are inverse on `Value`, so a compiled configuration is its
    document. Files, URL syntax and SHA-256 are supplied by a `Host`. */
module ConfigCompile {
  import opened Common
  import opened Strings
  import opened ConfigSchema

  type Document = map<Key, Value>

  datatype Policy = Policy(top: Fields, additional: AdditionalFields)

  datatype Authoritative = Authoritative(controller: string, secret: string)

  datatype Section = Proxy | Rule

  datatype ProviderKind = Remote(url: string) | Local(source: seq<string>)

  datatype ProviderRecord = ProviderRecord(section: Section, name: string, relative: string, kind: ProviderKind)

  datatype Effective = Effective(document: Document, providers: set<ProviderRecord>)

  /** `Panicked` stands for a failed `expect` or a reached `unreachable!`. */
  datatype Failure = Rejected | Panicked

  /** What compilation asks of the machine. A canonical path is its list of file names. */
  datatype Host = Host(
    root: Option<seq<string>>,
    canonicalize: string -> Option<seq<string>>,
    isFile: seq<string> -> bool,
    httpUrl: string -> bool,
    sha256: string -> string)
  {
    ghost predicate Faithful() {
      (forall p :: canonicalize(p).Some? ==> NormalNames(canonicalize(p).value)) &&
      (forall s :: NormalName(sha256(s)) && '\\' !in sha256(s))
    }
  }

  function K(name: string): Key {
    StringKey(name)
  }

  function TextAt(m: map<Key, Value>, name: string): Option<string> {
    if K(name) in m && m[K(name)].Text? then Some(m[K(name)].s) else None
  }

  // ---------------------------------------------------------------------------
  // Authoritative values
  // ---------------------------------------------------------------------------

  const TUN: Value := Mapping(map[
    K("enable") := Boolean(true), K("stack") := Text("gvisor"), K("auto-route") := Boolean(true),
    K("strict-route") := Boolean(false), K("auto-detect-interface") := Boolean(true),
    K("dns-hijack") := Sequence([Text("any:53")])])

  const DNS: map<Key, Value> := map[
    K("enable") := Boolean(true), K("ipv6") := Boolean(true), K("fallback") := Sequence([]),
    K("enhanced-mode") := Text("fake-ip"), K("fake-ip-range") := Text("198.18.0.1/16"),
    K("fake-ip-range6") := Text("fdfe:dcba:9876::1/64"), K("fake-ip-filter-mode") := Text("blacklist"),
    K("fake-ip-filter") := Sequence([Text("*.lan"), Text("*.local"), Text("*.arpa"), Text("time.*.com"),
      Text("ntp.*.com"), Text("+.market.xiaomi.com"), Text("localhost.ptlogin2.qq.com"),
      Text("*.msftncsi.com"), Text("www.msftconnecttest.com")])]

  const SNIFFER: Value := Mapping(map[
    K("enable") := Boolean(true), K("force-dns-mapping") := Boolean(true), K("parse-pure-ip") := Boolean(true),
    K("override-destination") := Boolean(true),
    K("sniff") := Mapping(map[
      K("HTTP") := Mapping(map[K("ports") := Sequence([Number(80), Text("8080-8880")]),
                               K("override-destination") := Boolean(true)]),
      K("TLS") := Mapping(map[K("ports") := Sequence([Number(443), Number(8443)])]),
      K("QUIC") := Mapping(map[K("ports") := Sequence([Number(443), Number(8443)])])])])

  function RulesValue(rules: seq<string>): Value {
    Sequence(seq(|rules|, i requires 0 <= i < |rules| => Text(rules[i])))
  }

  /** Every top-level value that compilation dictates, except inside `dns`. */
  function Dictated(rules: seq<string>, auth: Authoritative): Document {
    map[K("rules") := RulesValue(rules), K("mode") := Text("rule"), K("allow-lan") := Boolean(false),
        K("ipv6") := Boolean(true), K("geo-auto-update") := Boolean(false),
        K("external-controller-unix") := Text(auth.controller), K("secret") := Text(auth.secret),
        K("tun") := TUN, K("sniffer") := SNIFFER]
  }

  predicate ValidAuthoritative(auth: Authoritative) {
    Absolute(auth.controller) && auth.secret != ""
  }

  // ---------------------------------------------------------------------------
  // Providers
  // ---------------------------------------------------------------------------

  function SectionKey(section: Section): string {
    match section case Proxy => "proxy-providers" case Rule => "rule-providers"
  }

  function Directory(section: Section): string {
    match section case Proxy => "proxy" case Rule => "rule"
  }

  /** Where the Core may store a downloaded provider. */
  function RemotePath(host: Host, section: Section, name: string, url: string): string {
    Join(["providers", Directory(section), host.sha256(Directory(section) + "\0" + name + "\0" + url) + ".yaml"], '/')
  }

  /** The canonical source of a local provider and its path below the staging root. */
  function ResolveLocal(host: Host, root: seq<string>, raw: string): Option<(seq<string>, string)> {
    if HasParentDir(raw) then None
    else
      var candidate := if Absolute(raw) then raw
                       else (if root == [] then "" else "/" + Join(root, '/')) + "/" + raw;
      match host.canonicalize(candidate)
      case None => None
      case Some(source) =>
        if root < source && host.isFile(source) then Some((source, Join(source[|root|..], '/'))) else None
  }

  datatype Classified = Classified(value: Value, record: Option<ProviderRecord>)

  function ClassifyProvider(host: Host, root: seq<string>, section: Section, k: Key, v: Value)
    : Result<Classified, Failure>
  {
    if !k.StringKey? then Err(Panicked)
    else if !v.Mapping? then Err(Rejected)
    else match TextAt(v.entries, "type")
         case None => Err(Panicked)
         case Some(kind) =>
           if kind == "http" then
             match TextAt(v.entries, "url")
             case None => Err(Rejected)
             case Some(url) =>
               if !host.httpUrl(url) then Err(Rejected)
               else
                 var path := RemotePath(host, section, k.s, url);
                 Ok(Classified(Mapping(v.entries[K("path") := Text(SlashForm(path))]),
                               Some(ProviderRecord(section, k.s, path, Remote(url)))))
           else if kind == "file" then
             match TextAt(v.entries, "path")
             case None => Err(Rejected)
             case Some(raw) =>
               match ResolveLocal(host, root, raw)
               case None => Err(Rejected)
               case Some((source, path)) =>
                 Ok(Classified(Mapping(v.entries[K("path") := Text(SlashForm(path))]),
                               Some(ProviderRecord(section, k.s, path, Local(source)))))
           else if kind == "inline" then
             Ok(Classified(Mapping(v.entries - {K("path")}), None))
           else Err(Panicked)
  }

  type Outcomes = map<Key, Result<Classified, Failure>>

  function ClassifyAll(host: Host, root: seq<string>, section: Section, m: map<Key, Value>): Outcomes {
    map k | k in m :: ClassifyProvider(host, root, section, k, m[k])
  }

  predicate AllClassified(o: Outcomes) {
    forall k :: k in o ==> o[k].Ok?
  }

  function Rewritten(o: Outcomes): map<Key, Value>
    requires AllClassified(o)
  {
    map k | k in o :: o[k].value.value
  }

  function Records(o: Outcomes): set<ProviderRecord>
    requires AllClassified(o)
  {
    set k | k in o && o[k].value.record.Some? :: o[k].value.record.value
  }

  /** A section's providers are independent of each other. When several fail, which
      failure is reported depends on document order; the panic is the one shown here. */
  function ClassifySection(host: Host, root: seq<string>, e: Effective, section: Section)
    : Result<Effective, Failure>
  {
    var at := K(SectionKey(section));
    if at !in e.document || !e.document[at].Mapping? then Ok(e)
    else
      var o := ClassifyAll(host, root, section, e.document[at].entries);
      if exists k :: k in o && o[k] == Err(Panicked) then Err(Panicked)
      else if !AllClassified(o) then Err(Rejected)
      else Ok(Effective(e.document[at := Mapping(Rewritten(o))], e.providers + Records(o)))
  }

  // ---------------------------------------------------------------------------
  // Compilation
  // ---------------------------------------------------------------------------

  /** The values compilation dictates: top-level entries and entries of `dns`. */
  datatype Overrides = Overrides(top: Document, dns: map<Key, Value>)

  function Baseline(rules: seq<string>, auth: Authoritative): Overrides {
    Overrides(Dictated(rules, auth), DNS)
  }

  function Override(doc: Document, o: Overrides): Result<Document, Failure> {
    var d := doc + o.top;
    if K("dns") !in d then Ok(d[K("dns") := Mapping(o.dns)])
    else match d[K("dns")]
         case Mapping(m) => Ok(d[K("dns") := Mapping(m + o.dns)])
         case _ => Err(Rejected)
  }

  function Finish(policy: Policy, host: Host, root: seq<string>, doc: Document): Result<Effective, Failure> {
    match ClassifySection(host, root, Effective(doc, {}), Proxy)
    case Err(f) => Err(f)
    case Ok(e1) =>
      match ClassifySection(host, root, e1, Rule)
      case Err(f) => Err(f)
      case Ok(e2) => if ValidMapping(e2.document, policy.top, policy.additional) then Ok(e2) else Err(Rejected)
  }

  function CompileWith(policy: Policy, host: Host, doc: Document, o: Overrides): Result<Effective, Failure> {
    if !ValidMapping(doc, policy.top, policy.additional) || host.root.None? then Err(Rejected)
    else match Override(StripMapping(doc, policy.top), o)
         case Err(f) => Err(f)
         case Ok(d) => Finish(policy, host, host.root.value, d)
  }

  /** `referencesOk` is the verdict of `validate_references`, which only reads. */
  function Compile(policy: Policy, host: Host, doc: Document, rules: seq<string>, auth: Authoritative,
                   referencesOk: bool): Result<Effective, Failure>
  {
    if !ValidAuthoritative(auth) || !referencesOk then Err(Rejected)
    else CompileWith(policy, host, doc, Baseline(rules, auth))
  }

  // ---------------------------------------------------------------------------
  // The privileged check
  // ---------------------------------------------------------------------------

  predicate ProviderPathOk(v: Value, files: set<string>) {
    v.Mapping? &&
    var kind := TextAt(v.entries, "type");
    var path := TextAt(v.entries, "path");
    kind.Some? &&
    (path.Some? ==> NormalRelative(path.value)) &&
    (kind.value == "file" ==> path.Some? && path.value in files) &&
    (kind.value == "http" ==> path.Some?) &&
    (kind.value == "inline" ==> path.None?)
  }

  predicate SectionPathsOk(doc: Document, section: Section, files: set<string>) {
    var at := K(SectionKey(section));
    at in doc && doc[at].Mapping? ==>
      forall k :: k in doc[at].entries ==> ProviderPathOk(doc[at].entries[k], files)
  }

  predicate ProviderPathsOk(doc: Document, files: set<string>) {
    SectionPathsOk(doc, Proxy, files) && SectionPathsOk(doc, Rule, files)
  }

  predicate Holds(doc: Document, name: string, v: Value) {
    K(name) in doc && doc[K(name)] == v
  }

  predicate CarriesAuthority(doc: Document, auth: Authoritative) {
    Holds(doc, "mode", Text("rule")) && Holds(doc, "allow-lan", Boolean(false)) &&
    Holds(doc, "ipv6", Boolean(true)) && Holds(doc, "geo-auto-update", Boolean(false)) &&
    Holds(doc, "external-controller-unix", Text(auth.controller)) && Holds(doc, "secret", Text(auth.secret)) &&
    Holds(doc, "tun", TUN) && K("rules") in doc && doc[K("rules")].Sequence? &&
    K("dns") in doc && doc[K("dns")].Mapping? &&
    (forall k :: k in DNS ==> k in doc[K("dns")].entries && doc[K("dns")].entries[k] == DNS[k]) &&
    Holds(doc, "sniffer", SNIFFER)
  }

  predicate PrivilegedAccepts(policy: Policy, doc: Document, auth: Authoritative, files: set<string>) {
    ValidAuthoritative(auth) && ValidMapping(doc, policy.top, policy.additional) &&
    AbsentMapping(doc, policy.top) && CarriesAuthority(doc, auth) && ProviderPathsOk(doc, files)
  }

  /** The provider files a bundle manifest lists: the local ones, by exact path. */
  ghost function LocalFiles(providers: set<ProviderRecord>): set<string> {
    set p | p in providers && p.kind.Local? :: p.relative
  }
}
