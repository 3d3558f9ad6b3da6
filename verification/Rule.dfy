/** The rule grammar of `src/rule.rs`: four shapes, chosen by the rule type. Positions are counted
    in characters. */
module Rule {
  import opened Common
  import opened Strings
  import opened RuleText

  datatype RuleType =
    | And | Domain | DomainKeyword | DomainRegex | DomainSuffix | DomainWildcard | Dscp | DstPort | GeoIp | Geosite
    | InName | InPort | InType | InUser | IpAsn | IpCidr | IpCidr6 | IpSuffix | Match | Network | Not | Or
    | ProcessName | ProcessNameRegex | ProcessNameWildcard | ProcessPath | ProcessPathRegex | ProcessPathWildcard
    | RematchName | RuleSet | SrcGeoIp | SrcIpAsn | SrcIpCidr | SrcIpSuffix | SrcPort | SubRule | Uid

  datatype Parsed = Parsed(ruleType: RuleType, payload: Option<string>, target: string, params: seq<string>)

  datatype Error =
    | MissingRuleType
    | UnsupportedRuleType(name: string)
    | MissingPayload(ruleType: RuleType)
    | MissingPolicyTarget(ruleType: RuleType)
    | InvalidLogicalPayload(ruleType: RuleType)

  /** `RuleType::as_str`. */
  function Name(t: RuleType): (name: string)
    ensures Clean(name) && ',' !in name
  {
    match t
    case And => "AND"
    case Domain => "DOMAIN"
    case DomainKeyword => "DOMAIN-KEYWORD"
    case DomainRegex => "DOMAIN-REGEX"
    case DomainSuffix => "DOMAIN-SUFFIX"
    case DomainWildcard => "DOMAIN-WILDCARD"
    case Dscp => "DSCP"
    case DstPort => "DST-PORT"
    case GeoIp => "GEOIP"
    case Geosite => "GEOSITE"
    case InName => "IN-NAME"
    case InPort => "IN-PORT"
    case InType => "IN-TYPE"
    case InUser => "IN-USER"
    case IpAsn => "IP-ASN"
    case IpCidr => "IP-CIDR"
    case IpCidr6 => "IP-CIDR6"
    case IpSuffix => "IP-SUFFIX"
    case Match => "MATCH"
    case Network => "NETWORK"
    case Not => "NOT"
    case Or => "OR"
    case ProcessName => "PROCESS-NAME"
    case ProcessNameRegex => "PROCESS-NAME-REGEX"
    case ProcessNameWildcard => "PROCESS-NAME-WILDCARD"
    case ProcessPath => "PROCESS-PATH"
    case ProcessPathRegex => "PROCESS-PATH-REGEX"
    case ProcessPathWildcard => "PROCESS-PATH-WILDCARD"
    case RematchName => "REMATCH-NAME"
    case RuleSet => "RULE-SET"
    case SrcGeoIp => "SRC-GEOIP"
    case SrcIpAsn => "SRC-IP-ASN"
    case SrcIpCidr => "SRC-IP-CIDR"
    case SrcIpSuffix => "SRC-IP-SUFFIX"
    case SrcPort => "SRC-PORT"
    case SubRule => "SUB-RULE"
    case Uid => "UID"
  }

  /** `RuleType::parse`. */
  function ParseType(s: string): Result<RuleType, Error> {
    if s == "AND" then Ok(And)
    else if s == "DOMAIN" then Ok(Domain)
    else if s == "DOMAIN-KEYWORD" then Ok(DomainKeyword)
    else if s == "DOMAIN-REGEX" then Ok(DomainRegex)
    else if s == "DOMAIN-SUFFIX" then Ok(DomainSuffix)
    else if s == "DOMAIN-WILDCARD" then Ok(DomainWildcard)
    else if s == "DSCP" then Ok(Dscp)
    else if s == "DST-PORT" then Ok(DstPort)
    else if s == "GEOIP" then Ok(GeoIp)
    else if s == "GEOSITE" then Ok(Geosite)
    else if s == "IN-NAME" then Ok(InName)
    else if s == "IN-PORT" then Ok(InPort)
    else if s == "IN-TYPE" then Ok(InType)
    else if s == "IN-USER" then Ok(InUser)
    else if s == "IP-ASN" then Ok(IpAsn)
    else if s == "IP-CIDR" then Ok(IpCidr)
    else if s == "IP-CIDR6" then Ok(IpCidr6)
    else if s == "IP-SUFFIX" then Ok(IpSuffix)
    else if s == "MATCH" then Ok(Match)
    else if s == "NETWORK" then Ok(Network)
    else if s == "NOT" then Ok(Not)
    else if s == "OR" then Ok(Or)
    else if s == "PROCESS-NAME" then Ok(ProcessName)
    else if s == "PROCESS-NAME-REGEX" then Ok(ProcessNameRegex)
    else if s == "PROCESS-NAME-WILDCARD" then Ok(ProcessNameWildcard)
    else if s == "PROCESS-PATH" then Ok(ProcessPath)
    else if s == "PROCESS-PATH-REGEX" then Ok(ProcessPathRegex)
    else if s == "PROCESS-PATH-WILDCARD" then Ok(ProcessPathWildcard)
    else if s == "REMATCH-NAME" then Ok(RematchName)
    else if s == "RULE-SET" then Ok(RuleSet)
    else if s == "SRC-GEOIP" then Ok(SrcGeoIp)
    else if s == "SRC-IP-ASN" then Ok(SrcIpAsn)
    else if s == "SRC-IP-CIDR" then Ok(SrcIpCidr)
    else if s == "SRC-IP-SUFFIX" then Ok(SrcIpSuffix)
    else if s == "SRC-PORT" then Ok(SrcPort)
    else if s == "SUB-RULE" then Ok(SubRule)
    else if s == "UID" then Ok(Uid)
    else if s == "" then Err(MissingRuleType)
    else Err(UnsupportedRuleType(s))
  }

  datatype Shape = WithoutPayload | Logical | Regex | Standard

  function ShapeOf(t: RuleType): Shape {
    match t
    case Match => WithoutPayload
    case And => Logical
    case Not => Logical
    case Or => Logical
    case SubRule => Logical
    case DomainRegex => Regex
    case ProcessNameRegex => Regex
    case ProcessPathRegex => Regex
    case _ => Standard
  }

  predicate IsParameter(s: string) {
    s == "no-resolve" || s == "src"
  }

  /** A policy target followed by parameters. */
  function ParseTarget(t: RuleType, payload: Option<string>, fields: seq<string>): Result<Parsed, Error> {
    if fields == [] || fields[0] == "" then Err(MissingPolicyTarget(t))
    else Ok(Parsed(t, payload, fields[0], fields[1..]))
  }

  function ParseWithoutPayload(t: RuleType, remainder: string): Result<Parsed, Error> {
    ParseTarget(t, None, TrimAll(Split(remainder, ',')))
  }

  function ParseStandard(t: RuleType, remainder: string): Result<Parsed, Error> {
    var fields := TrimAll(Split(remainder, ','));
    WithPayload(t, fields[0], fields[1..])
  }

  /** How many fields at the end are parameter words, with a payload and a target left in front. */
  function Parameters(fields: seq<string>, isWord: string -> bool): (n: nat)
    ensures n == 0 || n + 2 <= |fields|
    ensures forall i :: |fields| - n <= i < |fields| ==> isWord(fields[i])
    ensures |fields| - n >= 3 ==> !isWord(fields[|fields| - n - 1])
  {
    if |fields| >= 3 && isWord(fields[|fields| - 1]) then 1 + Parameters(fields[..|fields| - 1], isWord) else 0
  }

  function ParseRegex(t: RuleType, remainder: string, isWord: string -> bool): Result<Parsed, Error> {
    var fields := Split(remainder, ',');
    RegexFields(t, fields, TrimAll(fields), isWord)
  }

  function RegexFields(t: RuleType, fields: seq<string>, clean: seq<string>,
                       isWord: string -> bool): Result<Parsed, Error>
    requires |clean| == |fields| >= 1
  {
    var at := |fields| - Parameters(clean, isWord) - 1;
    if at == 0 then Err(MissingPolicyTarget(t)) else RegexAt(t, fields, clean, at)
  }

  /** The target is field `at`; what is in front of it, commas and all, is the payload. */
  function RegexAt(t: RuleType, fields: seq<string>, clean: seq<string>, at: nat): Result<Parsed, Error>
    requires |clean| == |fields| && 1 <= at < |fields|
  {
    WithPayload(t, Trim(Join(fields[..at], ',')), clean[at..])
  }

  function WithPayload(t: RuleType, payload: string, fields: seq<string>): Result<Parsed, Error> {
    if payload == "" then Err(MissingPayload(t)) else ParseTarget(t, Some(payload), fields)
  }

  ghost function ParseLogical(t: RuleType, remainder: string): Result<Parsed, Error> {
    var text := TrimStart(remainder);
    var end := PayloadEnd(text);
    if end.None? then Err(InvalidLogicalPayload(t))
    else
      var tail := TrimStart(text[end.value..]);
      if tail == "" || tail[0] != ',' then Err(MissingPolicyTarget(t))
      else ParseTarget(t, Some(Trim(text[..end.value])), TrimAll(Split(tail[1..], ',')))
  }

  ghost function ParseAs(t: RuleType, remainder: string): Result<Parsed, Error> {
    match ShapeOf(t)
    case WithoutPayload => ParseWithoutPayload(t, remainder)
    case Logical => ParseLogical(t, remainder)
    case Regex => ParseRegex(t, remainder, IsParameter)
    case Standard => ParseStandard(t, remainder)
  }

  /** `parse_rule`. */
  ghost function Parse(rule: string): Result<Parsed, Error> {
    var parts := SplitOnce(rule);
    var head := if parts.Some? then parts.value.0 else rule;
    var remainder := if parts.Some? then parts.value.1 else "";
    match ParseType(Trim(head))
    case Err(error) => Err(error)
    case Ok(t) => ParseAs(t, remainder)
  }

  // ---------------------------------------------------------------------------
  // The loops
  // ---------------------------------------------------------------------------

  lemma SplitTail(s: string, head: string, tail: string)
    requires ',' !in tail && s == head + "," + tail
    ensures Split(s, ',') == Split(head, ',') + [tail]
  {
    JoinSplit(head, ',');
    JoinLast(Split(head, ','), tail);
    SplitJoin(Split(head, ',') + [tail], ',');
  }

  lemma CommaMeansTwoFields(s: string)
    ensures ',' in s <==> |Split(s, ',')| >= 2
  {
    JoinSplit(s, ',');
    CommaInJoin(Split(s, ','));
  }

  function Reversed(s: seq<string>): (r: seq<string>)
    ensures |r| == |s| && forall i :: 0 <= i < |s| ==> r[i] == s[|s| - 1 - i]
  {
    seq(|s|, i requires 0 <= i < |s| => s[|s| - 1 - i])
  }

  lemma ReversedGrows(s: seq<string>, n: nat)
    requires 1 <= n <= |s|
    ensures Reversed(s[n - 1..]) == Reversed(s[n..]) + [s[n - 1]]
  {
  }

  lemma ReversedTwice(s: seq<string>)
    ensures Reversed(Reversed(s)) == s
  {
  }

  /** One turn of the loop, on the fields: `n` fields are left, `s` is their text. */
  lemma LastField(all: seq<string>, n: nat, s: string, head: string, tail: string)
    requires 1 <= n <= |all| && Split(s, ',') == all[..n] && ',' !in tail && s == head + "," + tail
    ensures n >= 2 && Split(head, ',') == all[..n - 1] && all[n - 1] == tail && TrimAll(all)[n - 1] == Trim(tail)
    ensures ',' in head <==> n >= 3
    ensures head == Join(all[..n - 1], ',')
  {
    SplitTail(s, head, tail);
    assert all[..n - 1] == all[..n][..n - 1];
    CommaMeansTwoFields(head);
    JoinSplit(head, ',');
  }

  /** The words at the end, as far as a payload and a target are left: `n` fields remain. */
  ghost predicate WordsFrom(clean: seq<string>, n: nat, isWord: string -> bool) {
    n <= |clean| && (n < |clean| ==> n >= 2) && forall i :: n <= i < |clean| ==> isWord(clean[i])
  }

  /** Trailing words are all taken, and no more. */
  lemma {:induction false} AllParametersTaken(clean: seq<string>, n: nat, isWord: string -> bool)
    requires WordsFrom(clean, n, isWord) && (n >= 3 ==> !isWord(clean[n - 1]))
    ensures Parameters(clean, isWord) == |clean| - n
    decreases |clean|
  {
    if n < |clean| {
      var rest := clean[..|clean| - 1];
      assert isWord(clean[|clean| - 1]);
      assert forall i :: 0 <= i < |rest| ==> rest[i] == clean[i];
      AllParametersTaken(rest, n, isWord);
    }
  }

  predicate Shown(k: nat) {
    true
  }

  /** `s` spells the first `n` of `fields`, and `clean` are the fields trimmed. Stated under a
      quantifier so that the definitions of `Split` and `TrimAll` are used only where `Shown` is
      mentioned. */
  ghost predicate Spells(s: string, fields: seq<string>, clean: seq<string>, n: nat) {
    1 <= n <= |fields| == |clean| &&
    forall k: nat :: Shown(k) ==> Split(s, ',') == fields[..n] && clean == TrimAll(fields)
  }

  /** The last field, trimmed, the text before it and whether that has a comma. */
  method TakeLast(s: string, ghost fields: seq<string>, ghost clean: seq<string>, ghost n: nat)
    returns (found: bool, head: string, last: string, more: bool)
    requires Spells(s, fields, clean, n)
    ensures found <==> n >= 2
    ensures found ==> Spells(head, fields, clean, n - 1) && last == clean[n - 1] && (more <==> n >= 3)
    ensures found ==> head == Join(fields[..n - 1], ',')
  {
    assert Shown(0);
    var parts := RSplitOnce(s);
    CommaMeansTwoFields(s);
    if parts.None? {
      return false, "", "", false;
    }
    LastField(fields, n, s, parts.value.0, parts.value.1);
    return true, parts.value.0, Trim(parts.value.1), ',' in parts.value.0;
  }

  /** Takes parameters off the right end. */
  method TakeParameters(remainder: string, isWord: string -> bool, ghost fields: seq<string>, ghost clean: seq<string>)
    returns (ruleAndTarget: string, params: seq<string>, ghost n: nat)
    requires Spells(remainder, fields, clean, |fields|)
    ensures n == |clean| - Parameters(clean, isWord) && Spells(ruleAndTarget, fields, clean, n) && params == clean[n..]
  {
    ruleAndTarget, params, n := remainder, [], |fields|;
    while true
      invariant Spells(ruleAndTarget, fields, clean, n)
      invariant params == Reversed(clean[n..]) && WordsFrom(clean, n, isWord)
      decreases n
    {
      var found, head, parameter, more := TakeLast(ruleAndTarget, fields, clean, n);
      if !found || !isWord(parameter) || !more {
        AllParametersTaken(clean, n, isWord);
        break;
      }
      ReversedGrows(clean, n);
      params := params + [parameter];
      ruleAndTarget := head;
      n := n - 1;
    }
    ReversedTwice(clean[n..]);
    params := Reversed(params);
  }

  /** `parse_regex_rule`. */
  method ParseRegexRule(t: RuleType, remainder: string, isWord: string -> bool) returns (r: Result<Parsed, Error>)
    ensures r == ParseRegex(t, remainder, isWord)
  {
    ghost var fields := Split(remainder, ',');
    ghost var clean := TrimAll(fields);
    assert Spells(remainder, fields, clean, |fields|);
    r := ParseFields(t, remainder, isWord, fields, clean);
  }

  method ParseFields(t: RuleType, remainder: string, isWord: string -> bool, ghost fields: seq<string>,
                     ghost clean: seq<string>)
    returns (r: Result<Parsed, Error>)
    requires Spells(remainder, fields, clean, |fields|)
    ensures r == RegexFields(t, fields, clean, isWord)
  {
    var ruleAndTarget, params, n := TakeParameters(remainder, isWord, fields, clean);
    var found, head, target, _ := TakeLast(ruleAndTarget, fields, clean, n);
    if !found {
      return Err(MissingPolicyTarget(t));
    }
    var payload := Trim(head);
    RegexResult(t, fields, clean, isWord, n, payload, target, params);
    if payload == "" {
      return Err(MissingPayload(t));
    }
    if target == "" {
      return Err(MissingPolicyTarget(t));
    }
    r := Ok(Parsed(t, Some(payload), target, params));
  }

  lemma RegexResult(t: RuleType, fields: seq<string>, clean: seq<string>, isWord: string -> bool, n: nat,
                    payload: string, target: string, params: seq<string>)
    requires |clean| == |fields| && n == |clean| - Parameters(clean, isWord) && n >= 2
    requires payload == Trim(Join(fields[..n - 1], ',')) && target == clean[n - 1] && params == clean[n..]
    ensures RegexFields(t, fields, clean, isWord) ==
            if payload == "" then Err(MissingPayload(t))
            else if target == "" then Err(MissingPolicyTarget(t))
            else Ok(Parsed(t, Some(payload), target, params))
  {
    assert RegexFields(t, fields, clean, isWord) == RegexAt(t, fields, clean, n - 1);
    AssembledRegex(t, clean[n - 1..], payload, target, params);
  }

  lemma AssembledRegex(t: RuleType, fields: seq<string>, payload: string, target: string, params: seq<string>)
    requires |fields| >= 1 && target == fields[0] && params == fields[1..]
    ensures WithPayload(t, payload, fields) ==
            if payload == "" then Err(MissingPayload(t))
            else if target == "" then Err(MissingPolicyTarget(t))
            else Ok(Parsed(t, Some(payload), target, params))
  {
  }

  method ParseLogicalRule(t: RuleType, remainder: string) returns (r: Result<Parsed, Error>)
    ensures r == ParseLogical(t, remainder)
  {
    var text := TrimStart(remainder);
    var end := LogicalPayloadEnd(text);
    if end.None? {
      return Err(InvalidLogicalPayload(t));
    }
    var tail := TrimStart(text[end.value..]);
    if tail == "" || tail[0] != ',' {
      return Err(MissingPolicyTarget(t));
    }
    r := ParseTarget(t, Some(Trim(text[..end.value])), TrimAll(Split(tail[1..], ',')));
  }

  method ParseRule(rule: string) returns (r: Result<Parsed, Error>)
    ensures r == Parse(rule)
  {
    var parts := SplitOnce(rule);
    var head := if parts.Some? then parts.value.0 else rule;
    var remainder := if parts.Some? then parts.value.1 else "";
    var ruleType := ParseType(Trim(head));
    if ruleType.Err? {
      return Err(ruleType.error);
    }
    var t := ruleType.value;
    match ShapeOf(t)
    case WithoutPayload => r := ParseWithoutPayload(t, remainder);
    case Logical => r := ParseLogicalRule(t, remainder);
    case Regex => r := ParseRegexRule(t, remainder, IsParameter);
    case Standard => r := ParseStandard(t, remainder);
  }
}
