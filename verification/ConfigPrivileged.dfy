/** What the privileged check accepts, for every document, stated by path. */
module ConfigPrivileged {
  import opened Common
  import opened Strings
  import opened ConfigSchema
  import opened ConfigStrip
  import opened ConfigCompile
  import opened ConfigAgreement
  import opened ConfigPreservation

  /** What compilation writes, apart from the rules. */
  function Authority(auth: Authoritative): Overrides {
    Overrides(Dictated([], auth) - {K("rules")}, DNS)
  }

  /** Every value of `o` is at its place in the document. */
  ghost predicate HasAll(doc: Document, o: Overrides) {
    (forall k :: k in o.top ==> Lookup(Mapping(doc), [Field(k)]) == Some(o.top[k])) &&
    (forall k :: k in o.dns ==> Lookup(Mapping(doc), [Field(K("dns")), Field(k)]) == Some(o.dns[k])) &&
    (var dns := Lookup(Mapping(doc), [Field(K("dns"))]); dns.Some? && dns.value.Mapping?) &&
    (var rules := Lookup(Mapping(doc), [Field(K("rules"))]); rules.Some? && rules.value.Sequence?)
  }

  function TextBelow(v: Value, name: string): Option<string> {
    match Lookup(v, [Field(K(name))])
    case Some(Text(s)) => Some(s)
    case _ => None
  }

  /** A provider's path stays below the root; a local provider's is listed, a remote one has one,
      an inline one has none. */
  ghost predicate Placed(v: Value, files: set<string>) {
    var path := TextBelow(v, "path");
    match TextBelow(v, "type")
    case None => false
    case Some(kind) =>
      if kind == "inline" then path.None?
      else if kind == "file" then path.Some? && NormalRelative(path.value) && path.value in files
      else if kind == "http" then path.Some? && NormalRelative(path.value)
      else path.Some? ==> NormalRelative(path.value)
  }

  ghost predicate AllPlaced(doc: Document, section: Section, files: set<string>) {
    var at := [Field(K(SectionKey(section)))];
    Lookup(Mapping(doc), at).Some? && Lookup(Mapping(doc), at).value.Mapping? ==>
      forall name :: Lookup(Mapping(doc), ProviderAt(section, name)).Some? ==>
        Placed(Lookup(Mapping(doc), ProviderAt(section, name)).value, files)
  }

  lemma LookupTwo(doc: Document, a: Key, b: Key)
    ensures Lookup(Mapping(doc), [Field(a), Field(b)]) ==
            if a in doc && doc[a].Mapping? && b in doc[a].entries then Some(doc[a].entries[b]) else None
  {
    assert [Field(a), Field(b)][1..] == [Field(b)];
    if a in doc && doc[a].Mapping? {
      LookupField(doc[a].entries, b);
    }
  }

  lemma TextBelowIsTextAt(v: Value, name: string)
    ensures TextBelow(v, name) == if v.Mapping? then TextAt(v.entries, name) else None
  {
    if v.Mapping? {
      LookupField(v.entries, K(name));
    }
  }

  lemma PlacedExactly(v: Value, files: set<string>)
    ensures ProviderPathOk(v, files) <==> Placed(v, files)
  {
    TextBelowIsTextAt(v, "type");
    TextBelowIsTextAt(v, "path");
  }

  lemma AllPlacedExactly(doc: Document, section: Section, files: set<string>)
    ensures SectionPathsOk(doc, section, files) <==> AllPlaced(doc, section, files)
  {
    var at := K(SectionKey(section));
    LookupField(doc, at);
    if at in doc && doc[at].Mapping? {
      var m := doc[at].entries;
      forall k
        ensures Lookup(Mapping(doc), ProviderAt(section, k)) == if k in m then Some(m[k]) else None
        ensures k in m ==> (ProviderPathOk(m[k], files) <==> Placed(m[k], files))
      {
        LookupTwo(doc, at, k);
        if k in m {
          PlacedExactly(m[k], files);
        }
      }
    }
  }

  lemma HasAllParts(doc: Document, o: Overrides)
    ensures HasAll(doc, o) <==> HasTop(doc, o.top) && HasDns(doc, o.dns) && HasRules(doc)
  {
    forall k
      ensures Lookup(Mapping(doc), [Field(k)]) == if k in doc then Some(doc[k]) else None
      ensures Lookup(Mapping(doc), [Field(K("dns")), Field(k)]) ==
              if K("dns") in doc && doc[K("dns")].Mapping? && k in doc[K("dns")].entries
              then Some(doc[K("dns")].entries[k]) else None
    {
      LookupField(doc, k);
      LookupTwo(doc, K("dns"), k);
    }
  }

  /** The eight values, with the large ones left abstract. */
  ghost predicate HoldsEight(doc: Document, auth: Authoritative, tun: Value, sniffer: Value) {
    Holds(doc, "mode", Text("rule")) && Holds(doc, "allow-lan", Boolean(false)) &&
    Holds(doc, "ipv6", Boolean(true)) && Holds(doc, "geo-auto-update", Boolean(false)) &&
    Holds(doc, "external-controller-unix", Text(auth.controller)) && Holds(doc, "secret", Text(auth.secret)) &&
    Holds(doc, "tun", tun) && Holds(doc, "sniffer", sniffer)
  }

  lemma EightEntries(doc: Document, top: Document, auth: Authoritative, tun: Value, sniffer: Value)
    requires HoldsEight(top, auth, tun, sniffer)
    requires forall k :: k in top ==> k.StringKey? && k.s in WRITTEN && k.s != "rules"
    ensures HoldsEight(doc, auth, tun, sniffer) <==> forall k :: k in top ==> k in doc && doc[k] == top[k]
  {
  }

  lemma AuthorityValues(auth: Authoritative)
    ensures HoldsEight(Authority(auth).top, auth, TUN, SNIFFER)
    ensures forall k :: k in Authority(auth).top ==> k.StringKey? && k.s in WRITTEN && k.s != "rules"
  {
    DictatedValues([], auth);
    forall k | k in Authority(auth).top ensures k.StringKey? && k.s in WRITTEN && k.s != "rules" {
      BaselineWrites([], auth, k);
    }
  }

  ghost predicate HasTop(doc: Document, top: Document) {
    forall k :: k in top ==> k in doc && doc[k] == top[k]
  }

  ghost predicate HasDns(doc: Document, dns: map<Key, Value>) {
    K("dns") in doc && doc[K("dns")].Mapping? &&
    forall k :: k in dns ==> k in doc[K("dns")].entries && doc[K("dns")].entries[k] == dns[k]
  }

  ghost predicate HasRules(doc: Document) {
    K("rules") in doc && doc[K("rules")].Sequence?
  }

  lemma AuthorityParts(doc: Document, auth: Authoritative)
    ensures CarriesAuthority(doc, auth) <==>
              HoldsEight(doc, auth, TUN, SNIFFER) && HasDns(doc, DNS) && HasRules(doc)
  {
  }

  lemma AuthorityTop(doc: Document, auth: Authoritative)
    ensures HoldsEight(doc, auth, TUN, SNIFFER) <==> HasTop(doc, Authority(auth).top)
  {
    AuthorityValues(auth);
    EightEntries(doc, Authority(auth).top, auth, TUN, SNIFFER);
  }

  lemma CarriesExactly(doc: Document, auth: Authoritative)
    ensures CarriesAuthority(doc, auth) <==> HasAll(doc, Authority(auth))
  {
    AuthorityParts(doc, auth);
    AuthorityTop(doc, auth);
    HasAllParts(doc, Authority(auth));
  }

  /** The document is valid under the policy, and no path of it reaches a field the policy drops. */
  ghost predicate Permitted(p: Policy, doc: Document) {
    ValidNode(Mapping(doc), Top(p)) && !ReachesDrop(Mapping(doc), Top(p))
  }

  lemma PermittedExactly(p: Policy, doc: Document)
    requires WellFormedFields(p.top)
    ensures Permitted(p, doc) <==> ValidMapping(doc, p.top, p.additional) && AbsentMapping(doc, p.top)
  {
    if ValidMapping(doc, p.top, p.additional) {
      AbsentIffNoDropReached(Mapping(doc), Top(p));
    }
  }

  lemma PathsExactly(doc: Document, files: set<string>)
    ensures ProviderPathsOk(doc, files) <==> AllPlaced(doc, Proxy, files) && AllPlaced(doc, Rule, files)
  {
    AllPlacedExactly(doc, Proxy, files);
    AllPlacedExactly(doc, Rule, files);
  }

  /** Main result. The privileged check accepts a document exactly if the endpoint is valid, the
      document is valid under the policy, no path of it reaches a dropped field at any depth, every
      value compilation dictates is at its place, and every provider's path stays below the root
      and, for a local provider, is a listed file. */
  lemma PrivilegedExactly(p: Policy, doc: Document, auth: Authoritative, files: set<string>)
    requires WellFormedFields(p.top)
    ensures PrivilegedAccepts(p, doc, auth, files) <==>
              Absolute(auth.controller) && auth.secret != "" && Permitted(p, doc) && HasAll(doc, Authority(auth)) &&
              AllPlaced(doc, Proxy, files) && AllPlaced(doc, Rule, files)
  {
    PermittedExactly(p, doc);
    CarriesExactly(doc, auth);
    PathsExactly(doc, files);
  }
}
