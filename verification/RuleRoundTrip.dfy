/** Which rules survive printing and parsing: exactly the well-formed ones, and every rule the
    parser returns is well formed. */
module RuleRoundTrip {
  import opened Common
  import opened Strings
  import opened RuleText
  import opened Rule

  /** Everything after the rule type. */
  function Body(payload: Option<string>, target: string, params: seq<string>): string {
    (if payload.Some? then payload.value + "," else "") + Join([target] + params, ',')
  }

  /** The canonical text of a rule. */
  function Render(r: Parsed): string {
    Name(r.ruleType) + "," + Body(r.payload, r.target, r.params)
  }

  ghost predicate CleanTarget(r: Parsed) {
    r.target != "" && CleanFields([r.target] + r.params)
  }

  ghost predicate WellFormedStandard(r: Parsed) {
    CleanTarget(r) && r.payload.Some? && r.payload.value != "" && Clean(r.payload.value) && ',' !in r.payload.value
  }

  /** A payload with a comma needs a target that is not itself a parameter word. */
  ghost predicate WellFormedRegex(r: Parsed, isWord: string -> bool) {
    && CleanTarget(r)
    && r.payload.Some? && r.payload.value != "" && Clean(r.payload.value)
    && (forall i :: 0 <= i < |r.params| ==> isWord(r.params[i]))
    && (',' in r.payload.value ==> !isWord(r.target))
  }

  /** A logical payload is one balanced group, commas and all. */
  ghost predicate WellFormedLogical(r: Parsed) {
    CleanTarget(r) && r.payload.Some? && Clean(r.payload.value) && Balanced(r.payload.value, |r.payload.value|)
  }

  ghost predicate WellFormed(r: Parsed) {
    match ShapeOf(r.ruleType)
    case WithoutPayload => CleanTarget(r) && r.payload.None?
    case Logical => WellFormedLogical(r)
    case Regex => WellFormedRegex(r, IsParameter)
    case Standard => WellFormedStandard(r)
  }

  // ---------------------------------------------------------------------------
  // Well-formed rules parse back
  // ---------------------------------------------------------------------------

  /** Clean fields come back from their joined text. */
  lemma FieldsParseBack(fields: seq<string>)
    requires |fields| >= 1 && CleanFields(fields)
    ensures TrimAll(Split(Join(fields, ','), ',')) == fields
  {
    SplitJoin(fields, ',');
    TrimAllFacts(fields);
  }

  lemma TargetParsesBack(r: Parsed)
    requires CleanTarget(r)
    ensures ParseTarget(r.ruleType, r.payload, [r.target] + r.params) == Ok(r)
  {
    assert ([r.target] + r.params)[1..] == r.params;
  }

  lemma WithoutPayloadParsesBack(r: Parsed)
    requires CleanTarget(r) && r.payload.None?
    ensures ParseWithoutPayload(r.ruleType, Body(r.payload, r.target, r.params)) == Ok(r)
  {
    var text := Join([r.target] + r.params, ',');
    assert "" + text == text;
    FieldsParseBack([r.target] + r.params);
    TargetParsesBack(r);
  }

  lemma StandardParsesBack(r: Parsed)
    requires WellFormedStandard(r)
    ensures ParseStandard(r.ruleType, Body(r.payload, r.target, r.params)) == Ok(r)
  {
    var rest := [r.target] + r.params;
    var fields := [r.payload.value] + rest;
    assert fields[1..] == rest;
    assert CleanFields(fields);
    assert Join(fields, ',') == Body(r.payload, r.target, r.params);
    FieldsParseBack(fields);
    TargetParsesBack(r);
  }

  lemma LogicalParsesBack(r: Parsed)
    requires WellFormedLogical(r)
    ensures ParseLogical(r.ruleType, Body(r.payload, r.target, r.params)) == Ok(r)
  {
    var payload, rest := r.payload.value, Join([r.target] + r.params, ',');
    var text := payload + "," + rest;
    assert text[0] == payload[0];
    TrimStartFacts(text);
    assert text[..|payload|] == payload == payload[..|payload|];
    EndDependsOnPrefix(payload, text, |payload|);
    var tail := text[|payload|..];
    assert tail == "," + rest;
    TrimStartFacts(tail);
    assert tail[1..] == rest;
    TrimFacts(payload);
    FieldsParseBack([r.target] + r.params);
    TargetParsesBack(r);
  }

  lemma BodyFields(payload: string, rest: seq<string>)
    requires |rest| >= 1 && CleanFields(rest)
    ensures Split(payload + "," + Join(rest, ','), ',') == Split(payload, ',') + rest
  {
    var pieces := Split(payload, ',');
    JoinSplit(payload, ',');
    JoinConcat(pieces, rest);
    SplitJoin(pieces + rest, ',');
  }

  /** With the payload's pieces in front, exactly the parameters are taken. */
  lemma ParametersOf(pieces: seq<string>, target: string, params: seq<string>, isWord: string -> bool)
    requires |pieces| >= 1 && CleanFields([target] + params) && (forall i :: 0 <= i < |params| ==> isWord(params[i]))
    requires |pieces| >= 2 ==> !isWord(target)
    ensures var clean := TrimAll(pieces + ([target] + params));
            var n := |pieces| + 1;
            Parameters(clean, isWord) == |clean| - n && clean[n - 1] == target && clean[n..] == params
  {
    TrimmedTail(pieces, [target] + params);
    var clean := TrimAll(pieces + ([target] + params));
    assert clean == TrimAll(pieces) + [target] + params;
    AllParametersTaken(clean, |pieces| + 1, isWord);
  }

  lemma RegexParsesBack(r: Parsed, isWord: string -> bool)
    requires WellFormedRegex(r, isWord)
    ensures ParseRegex(r.ruleType, Body(r.payload, r.target, r.params), isWord) == Ok(r)
  {
    var payload := r.payload.value;
    var pieces, rest := Split(payload, ','), [r.target] + r.params;
    BodyFields(payload, rest);
    CommaMeansTwoFields(payload);
    ParametersOf(pieces, r.target, r.params, isWord);
    JoinSplit(payload, ',');
    TrimFacts(payload);
    var fields := pieces + rest;
    assert fields[..|pieces|] == pieces;
    RegexResult(r.ruleType, fields, TrimAll(fields), isWord, |pieces| + 1, payload, r.target, r.params);
  }

  lemma TrimmedTail(pieces: seq<string>, rest: seq<string>)
    requires CleanFields(rest)
    ensures TrimAll(pieces + rest) == TrimAll(pieces) + rest
  {
    forall i | 0 <= i < |rest| ensures Trim(rest[i]) == rest[i] {
      TrimFacts(rest[i]);
    }
  }

  // ---------------------------------------------------------------------------
  // What the parser returns is well formed
  // ---------------------------------------------------------------------------

  lemma SplitIsClean(s: string)
    ensures CleanFields(TrimAll(Split(s, ',')))
  {
    JoinSplit(s, ',');
    TrimAllFacts(Split(s, ','));
  }

  lemma ParsedTarget(t: RuleType, payload: Option<string>, fields: seq<string>)
    requires CleanFields(fields) && ParseTarget(t, payload, fields).Ok?
    ensures var r := ParseTarget(t, payload, fields).value;
            CleanTarget(r) && r.ruleType == t && r.payload == payload && [r.target] + r.params == fields
  {
    assert [fields[0]] + fields[1..] == fields;
  }

  lemma ParsedStandard(t: RuleType, remainder: string)
    requires ParseStandard(t, remainder).Ok?
    ensures WellFormedStandard(ParseStandard(t, remainder).value) && ParseStandard(t, remainder).value.ruleType == t
  {
    var fields := TrimAll(Split(remainder, ','));
    SplitIsClean(remainder);
    assert CleanFields(fields[1..]);
    ParsedTarget(t, Some(fields[0]), fields[1..]);
  }

  lemma ParsedWithoutPayload(t: RuleType, remainder: string)
    requires ParseWithoutPayload(t, remainder).Ok?
    ensures var r := ParseWithoutPayload(t, remainder).value; CleanTarget(r) && r.payload.None? && r.ruleType == t
  {
    SplitIsClean(remainder);
    ParsedTarget(t, None, TrimAll(Split(remainder, ',')));
  }

  lemma ParsedLogical(t: RuleType, remainder: string)
    requires ParseLogical(t, remainder).Ok?
    ensures WellFormedLogical(ParseLogical(t, remainder).value) && ParseLogical(t, remainder).value.ruleType == t
  {
    var text := TrimStart(remainder);
    TrimStartFacts(remainder);
    var end := PayloadEnd(text).value;
    var payload := text[..end];
    assert ClosesAt(text, end - 1);
    assert payload[0] == text[0] && payload[end - 1] == ')';
    TrimFacts(payload);
    assert payload[..end] == payload;
    EndDependsOnPrefix(text, payload, end);
    var tail := TrimStart(text[end..]);
    SplitIsClean(tail[1..]);
    ParsedTarget(t, Some(payload), TrimAll(Split(tail[1..], ',')));
  }

  lemma ParsedRegex(t: RuleType, remainder: string, isWord: string -> bool)
    requires ParseRegex(t, remainder, isWord).Ok?
    ensures var r := ParseRegex(t, remainder, isWord).value; WellFormedRegex(r, isWord) && r.ruleType == t
  {
    var fields := Split(remainder, ',');
    var clean := TrimAll(fields);
    var n := |fields| - Parameters(clean, isWord);
    JoinSplit(remainder, ',');
    SplitIsClean(remainder);
    var front := fields[..n - 1];
    var payload := Trim(Join(front, ','));
    RegexResult(t, fields, clean, isWord, n, payload, clean[n - 1], clean[n..]);
    RegexPieces(clean, n, front, payload, isWord);
  }

  lemma RegexPieces(clean: seq<string>, n: nat, front: seq<string>, payload: string, isWord: string -> bool)
    requires CleanFields(clean) && n == |clean| - Parameters(clean, isWord) && n >= 2 && |front| == n - 1
    requires Free(front, ',')
    requires payload == Trim(Join(front, ','))
    ensures Clean(payload) && CleanFields([clean[n - 1]] + clean[n..])
    ensures forall i :: 0 <= i < |clean[n..]| ==> isWord(clean[n..][i])
    ensures ',' in payload ==> !isWord(clean[n - 1])
  {
    TrimFacts(Join(front, ','));
    CommaInJoin(front);
    assert [clean[n - 1]] + clean[n..] == clean[n - 1..];
  }

  // ---------------------------------------------------------------------------
  // All four shapes
  // ---------------------------------------------------------------------------

  lemma BodyParsesBack(r: Parsed)
    requires WellFormed(r)
    ensures ParseAs(r.ruleType, Body(r.payload, r.target, r.params)) == Ok(r)
  {
    match ShapeOf(r.ruleType)
    case WithoutPayload => WithoutPayloadParsesBack(r);
    case Logical => LogicalParsesBack(r);
    case Regex => RegexParsesBack(r, IsParameter);
    case Standard => StandardParsesBack(r);
  }

  lemma ParsedIsWellFormed(t: RuleType, remainder: string)
    requires ParseAs(t, remainder).Ok?
    ensures WellFormed(ParseAs(t, remainder).value)
  {
    match ShapeOf(t)
    case WithoutPayload => ParsedWithoutPayload(t, remainder);
    case Logical => ParsedLogical(t, remainder);
    case Regex => ParsedRegex(t, remainder, IsParameter);
    case Standard => ParsedStandard(t, remainder);
  }

  // The names one by one, in the order in which they are compared.

  /** Under a quantifier for the same reason as `Spells`. */
  ghost predicate ReadsAs(s: string, t: RuleType) {
    forall k: nat :: Shown(k) ==> ParseType(s) == Ok(t)
  }

  lemma Reads(s: string, t: RuleType)
    requires ParseType(s) == Ok(t)
    ensures ReadsAs(s, t)
  {
  }

  lemma ReadAndToDstPort()
    ensures ReadsAs("AND", And)
    ensures ReadsAs("DOMAIN", Domain)
    ensures ReadsAs("DOMAIN-KEYWORD", DomainKeyword)
    ensures ReadsAs("DOMAIN-REGEX", DomainRegex)
    ensures ReadsAs("DOMAIN-SUFFIX", DomainSuffix)
    ensures ReadsAs("DOMAIN-WILDCARD", DomainWildcard)
    ensures ReadsAs("DSCP", Dscp)
    ensures ReadsAs("DST-PORT", DstPort)
  {
    Reads("AND", And);
    Reads("DOMAIN", Domain);
    Reads("DOMAIN-KEYWORD", DomainKeyword);
    Reads("DOMAIN-REGEX", DomainRegex);
    Reads("DOMAIN-SUFFIX", DomainSuffix);
    Reads("DOMAIN-WILDCARD", DomainWildcard);
    Reads("DSCP", Dscp);
    Reads("DST-PORT", DstPort);
  }

  lemma ReadGeoIpToInType()
    ensures ReadsAs("GEOIP", GeoIp)
    ensures ReadsAs("GEOSITE", Geosite)
    ensures ReadsAs("IN-NAME", InName)
    ensures ReadsAs("IN-PORT", InPort)
    ensures ReadsAs("IN-TYPE", InType)
  {
    Reads("GEOIP", GeoIp);
    Reads("GEOSITE", Geosite);
    Reads("IN-NAME", InName);
    Reads("IN-PORT", InPort);
    Reads("IN-TYPE", InType);
  }

  lemma ReadInUserToIpCidr6()
    ensures ReadsAs("IN-USER", InUser)
    ensures ReadsAs("IP-ASN", IpAsn)
    ensures ReadsAs("IP-CIDR", IpCidr)
    ensures ReadsAs("IP-CIDR6", IpCidr6)
  {
    Reads("IN-USER", InUser);
    Reads("IP-ASN", IpAsn);
    Reads("IP-CIDR", IpCidr);
    Reads("IP-CIDR6", IpCidr6);
  }

  lemma ReadIpSuffixToNot()
    ensures ReadsAs("IP-SUFFIX", IpSuffix)
    ensures ReadsAs("MATCH", Match)
    ensures ReadsAs("NETWORK", Network)
    ensures ReadsAs("NOT", Not)
  {
    Reads("IP-SUFFIX", IpSuffix);
    Reads("MATCH", Match);
    Reads("NETWORK", Network);
    Reads("NOT", Not);
  }

  lemma ReadOrToProcessNameRegex()
    ensures ReadsAs("OR", Or)
    ensures ReadsAs("PROCESS-NAME", ProcessName)
    ensures ReadsAs("PROCESS-NAME-REGEX", ProcessNameRegex)
  {
    Reads("OR", Or);
    Reads("PROCESS-NAME", ProcessName);
    Reads("PROCESS-NAME-REGEX", ProcessNameRegex);
  }

  lemma ReadProcessNameWildcardToProcessPathRegex()
    ensures ReadsAs("PROCESS-NAME-WILDCARD", ProcessNameWildcard)
    ensures ReadsAs("PROCESS-PATH", ProcessPath)
    ensures ReadsAs("PROCESS-PATH-REGEX", ProcessPathRegex)
  {
    Reads("PROCESS-NAME-WILDCARD", ProcessNameWildcard);
    Reads("PROCESS-PATH", ProcessPath);
    Reads("PROCESS-PATH-REGEX", ProcessPathRegex);
  }

  lemma ReadProcessPathWildcardToRematchName()
    ensures ReadsAs("PROCESS-PATH-WILDCARD", ProcessPathWildcard)
    ensures ReadsAs("REMATCH-NAME", RematchName)
  {
    Reads("PROCESS-PATH-WILDCARD", ProcessPathWildcard);
    Reads("REMATCH-NAME", RematchName);
  }

  lemma ReadRuleSetToSrcGeoIp()
    ensures ReadsAs("RULE-SET", RuleSet)
    ensures ReadsAs("SRC-GEOIP", SrcGeoIp)
  {
    Reads("RULE-SET", RuleSet);
    Reads("SRC-GEOIP", SrcGeoIp);
  }

  lemma ReadSrcIpAsnToSrcIpCidr()
    ensures ReadsAs("SRC-IP-ASN", SrcIpAsn)
    ensures ReadsAs("SRC-IP-CIDR", SrcIpCidr)
  {
    Reads("SRC-IP-ASN", SrcIpAsn);
    Reads("SRC-IP-CIDR", SrcIpCidr);
  }

  lemma ReadSrcIpSuffixToSrcPort()
    ensures ReadsAs("SRC-IP-SUFFIX", SrcIpSuffix)
    ensures ReadsAs("SRC-PORT", SrcPort)
  {
    Reads("SRC-IP-SUFFIX", SrcIpSuffix);
    Reads("SRC-PORT", SrcPort);
  }

  lemma ReadSubRuleToUid()
    ensures ReadsAs("SUB-RULE", SubRule)
    ensures ReadsAs("UID", Uid)
  {
    Reads("SUB-RULE", SubRule);
    Reads("UID", Uid);
  }

  lemma NameReadsAs(t: RuleType)
    ensures ReadsAs(Name(t), t)
  {
    match t
    case And => ReadAndToDstPort();
    case Domain => ReadAndToDstPort();
    case DomainKeyword => ReadAndToDstPort();
    case DomainRegex => ReadAndToDstPort();
    case DomainSuffix => ReadAndToDstPort();
    case DomainWildcard => ReadAndToDstPort();
    case Dscp => ReadAndToDstPort();
    case DstPort => ReadAndToDstPort();
    case GeoIp => ReadGeoIpToInType();
    case Geosite => ReadGeoIpToInType();
    case InName => ReadGeoIpToInType();
    case InPort => ReadGeoIpToInType();
    case InType => ReadGeoIpToInType();
    case InUser => ReadInUserToIpCidr6();
    case IpAsn => ReadInUserToIpCidr6();
    case IpCidr => ReadInUserToIpCidr6();
    case IpCidr6 => ReadInUserToIpCidr6();
    case IpSuffix => ReadIpSuffixToNot();
    case Match => ReadIpSuffixToNot();
    case Network => ReadIpSuffixToNot();
    case Not => ReadIpSuffixToNot();
    case Or => ReadOrToProcessNameRegex();
    case ProcessName => ReadOrToProcessNameRegex();
    case ProcessNameRegex => ReadOrToProcessNameRegex();
    case ProcessNameWildcard => ReadProcessNameWildcardToProcessPathRegex();
    case ProcessPath => ReadProcessNameWildcardToProcessPathRegex();
    case ProcessPathRegex => ReadProcessNameWildcardToProcessPathRegex();
    case ProcessPathWildcard => ReadProcessPathWildcardToRematchName();
    case RematchName => ReadProcessPathWildcardToRematchName();
    case RuleSet => ReadRuleSetToSrcGeoIp();
    case SrcGeoIp => ReadRuleSetToSrcGeoIp();
    case SrcIpAsn => ReadSrcIpAsnToSrcIpCidr();
    case SrcIpCidr => ReadSrcIpAsnToSrcIpCidr();
    case SrcIpSuffix => ReadSrcIpSuffixToSrcPort();
    case SrcPort => ReadSrcIpSuffixToSrcPort();
    case SubRule => ReadSubRuleToUid();
    case Uid => ReadSubRuleToUid();
  }

  lemma ReadsMeans(s: string, t: RuleType)
    requires ReadsAs(s, t)
    ensures ParseType(s) == Ok(t)
  {
    assert Shown(0);
  }

  /** Every type is read back from its name. */
  lemma NameParsesBack(t: RuleType)
    ensures ParseType(Name(t)) == Ok(t)
  {
    NameReadsAs(t);
    ReadsMeans(Name(t), t);
  }

  /** Main result. Printing a rule and parsing the text gives the rule back if and only if the
      rule is well formed. */
  lemma RoundTrip(r: Parsed)
    ensures Parse(Render(r)) == Ok(r) <==> WellFormed(r)
  {
    var name, body := Name(r.ruleType), Body(r.payload, r.target, r.params);
    NameParsesBack(r.ruleType);
    NamedText(name, body);
    assert Parse(Render(r)) == ParseAs(r.ruleType, body);
    if WellFormed(r) {
      BodyParsesBack(r);
    }
    if ParseAs(r.ruleType, body) == Ok(r) {
      ParsedIsWellFormed(r.ruleType, body);
    }
  }

  lemma NamedText(name: string, body: string)
    requires Clean(name) && ',' !in name
    ensures SplitOnce(name + "," + body) == Some((name, body)) && Trim(name) == name
  {
    var s := name + "," + body;
    assert s[|name|] == ',';
    FirstCommaIsUnique(name, body, SplitOnce(s).value.0, SplitOnce(s).value.1);
    TrimFacts(name);
  }

  /** A payload with a comma before a target that is a parameter word is read differently. */
  lemma WordTargetIsMisread()
    ensures var r := Parsed(DomainRegex, Some("a,b"), "src", []);
            !WellFormed(r) && Parse(Render(r)) != Ok(r)
  {
    var r := Parsed(DomainRegex, Some("a,b"), "src", []);
    assert "a,b"[1] == ',';
    RoundTrip(r);
  }

  /** Main result. The text printed from any parsed rule parses to the same rule. */
  lemma PrintingIsCanonical(rule: string)
    requires Parse(rule).Ok?
    ensures WellFormed(Parse(rule).value) && Parse(Render(Parse(rule).value)) == Parse(rule)
  {
    var parts := SplitOnce(rule);
    var head := if parts.Some? then parts.value.0 else rule;
    var remainder := if parts.Some? then parts.value.1 else "";
    ParsedIsWellFormed(ParseType(Trim(head)).value, remainder);
    RoundTrip(Parse(rule).value);
  }
}
