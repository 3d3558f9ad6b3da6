/** The string operations the rule parser is written in: trimming, splitting at a comma, and
    finding the end of a balanced logical payload. */
module RuleText {
  import opened Common
  import opened Strings

  /** `char::is_whitespace` (the Unicode White_Space property). */
  predicate IsSpace(c: char) {
    var k := c as int;
    0x09 <= k <= 0x0D || k == 0x20 || k == 0x85 || k == 0xA0 || k == 0x1680 || 0x2000 <= k <= 0x200A ||
    k == 0x2028 || k == 0x2029 || k == 0x202F || k == 0x205F || k == 0x3000
  }

  function TrimStart(s: string): string {
    if s != "" && IsSpace(s[0]) then TrimStart(s[1..]) else s
  }

  function TrimEnd(s: string): string {
    if s != "" && IsSpace(s[|s| - 1]) then TrimEnd(s[..|s| - 1]) else s
  }

  lemma TrimStartFacts(s: string)
    ensures |TrimStart(s)| <= |s| && TrimStart(s) == s[|s| - |TrimStart(s)|..]
    ensures TrimStart(s) == "" || !IsSpace(TrimStart(s)[0])
    ensures s != "" && !IsSpace(s[0]) ==> TrimStart(s) == s
  {
  }

  lemma TrimEndFacts(s: string)
    ensures TrimEnd(s) <= s
    ensures TrimEnd(s) == "" || !IsSpace(TrimEnd(s)[|TrimEnd(s)| - 1])
    ensures s != "" && !IsSpace(s[|s| - 1]) ==> TrimEnd(s) == s
  {
  }

  function Trim(s: string): string {
    TrimEnd(TrimStart(s))
  }

  /** No white space at either end. */
  predicate Clean(s: string) {
    s == "" || (!IsSpace(s[0]) && !IsSpace(s[|s| - 1]))
  }

  predicate AllSpace(s: string) {
    forall i :: 0 <= i < |s| ==> IsSpace(s[i])
  }

  lemma {:induction false} TrimStartDrops(s: string)
    ensures |TrimStart(s)| <= |s| && forall i :: 0 <= i < |s| - |TrimStart(s)| ==> IsSpace(s[i])
    decreases |s|
  {
    if s != "" && IsSpace(s[0]) {
      TrimStartDrops(s[1..]);
      forall i | 0 < i < |s| - |TrimStart(s)| ensures IsSpace(s[i]) {
        assert s[i] == s[1..][i - 1];
      }
    }
  }

  lemma {:induction false} TrimEndDrops(s: string)
    ensures TrimEnd(s) <= s && forall i :: |TrimEnd(s)| <= i < |s| ==> IsSpace(s[i])
    decreases |s|
  {
    if s != "" && IsSpace(s[|s| - 1]) {
      TrimEndDrops(s[..|s| - 1]);
      forall i | |TrimEnd(s)| <= i < |s| - 1 ensures IsSpace(s[i]) {
        assert s[i] == s[..|s| - 1][i];
      }
    }
  }

  /** Trimming takes white space off the ends, all of it, and nothing else. */
  lemma TrimExactly(s: string) returns (front: string, back: string)
    ensures s == front + Trim(s) + back && AllSpace(front) && AllSpace(back) && Clean(Trim(s))
  {
    var rest := TrimStart(s);
    TrimFacts(s);
    front := TrimStartSplits(s);
    back := TrimEndSplits(rest);
    assert front + (Trim(s) + back) == front + Trim(s) + back;
  }

  lemma TrimStartSplits(s: string) returns (front: string)
    ensures s == front + TrimStart(s) && AllSpace(front)
  {
    TrimStartDrops(s);
    TrimStartFacts(s);
    front := s[..|s| - |TrimStart(s)|];
  }

  lemma TrimEndSplits(s: string) returns (back: string)
    ensures s == TrimEnd(s) + back && AllSpace(back)
  {
    TrimEndDrops(s);
    back := s[|TrimEnd(s)|..];
  }

  lemma TrimFacts(s: string)
    ensures Clean(Trim(s))
    ensures Clean(s) ==> Trim(s) == s
    ensures ',' !in s ==> ',' !in Trim(s)
  {
    TrimStartFacts(s);
    TrimEndFacts(TrimStart(s));
  }

  function TrimAll(parts: seq<string>): seq<string> {
    seq(|parts|, i requires 0 <= i < |parts| => Trim(parts[i]))
  }

  /** Fields as the parser returns them: trimmed, and without a comma. */
  ghost predicate CleanFields(parts: seq<string>) {
    forall i :: 0 <= i < |parts| ==> Clean(parts[i]) && ',' !in parts[i]
  }

  lemma TrimAllFacts(parts: seq<string>)
    requires Free(parts, ',')
    ensures CleanFields(TrimAll(parts))
    ensures CleanFields(parts) ==> TrimAll(parts) == parts
  {
    forall i | 0 <= i < |parts| ensures Clean(TrimAll(parts)[i]) && ',' !in TrimAll(parts)[i] {
      TrimFacts(parts[i]);
    }
    if CleanFields(parts) {
      forall i | 0 <= i < |parts| ensures TrimAll(parts)[i] == parts[i] {
        TrimFacts(parts[i]);
      }
    }
  }

  /** `str::split_once(',')`. */
  function SplitOnce(s: string): (r: Option<(string, string)>)
    ensures r.None? <==> ',' !in s
    ensures r.Some? ==> ',' !in r.value.0 && s == r.value.0 + "," + r.value.1
  {
    if s == "" then None
    else if s[0] == ',' then Some(("", s[1..]))
    else
      var rest := SplitOnce(s[1..]);
      if rest.None? then None else Some(([s[0]] + rest.value.0, rest.value.1))
  }

  /** `str::rsplit_once(',')`. */
  function RSplitOnce(s: string): (r: Option<(string, string)>)
    ensures r.None? <==> ',' !in s
    ensures r.Some? ==> ',' !in r.value.1 && s == r.value.0 + "," + r.value.1
  {
    if s == "" then None
    else if s[|s| - 1] == ',' then Some((s[..|s| - 1], ""))
    else
      var rest := RSplitOnce(s[..|s| - 1]);
      if rest.None? then None else Some((rest.value.0, rest.value.1 + [s[|s| - 1]]))
  }

  /** A string determines its parts around the first comma. */
  lemma FirstCommaIsUnique(a: string, b: string, c: string, d: string)
    requires ',' !in a && ',' !in c && a + "," + b == c + "," + d
    ensures a == c && b == d
  {
    var s := a + "," + b;
    assert s[|a|] == ',' && s[..|a|] == a && s[|a| + 1..] == b;
    assert s[|c|] == ',' && s[..|c|] == c && s[|c| + 1..] == d;
    assert forall i :: 0 <= i < |a| ==> s[i] == a[i];
    assert forall i :: 0 <= i < |c| ==> s[i] == c[i];
  }

  lemma {:induction false} JoinLast(parts: seq<string>, last: string)
    requires |parts| >= 1
    ensures Join(parts + [last], ',') == Join(parts, ',') + "," + last
    decreases |parts|
  {
    assert (parts + [last])[1..] == parts[1..] + [last];
    if |parts| == 1 {
      assert Join([last], ',') == last;
    } else {
      JoinLast(parts[1..], last);
    }
  }

  lemma {:induction false} JoinConcat(a: seq<string>, b: seq<string>)
    requires |a| >= 1 && |b| >= 1
    ensures Join(a + b, ',') == Join(a, ',') + "," + Join(b, ',')
    decreases |a|
  {
    assert (a + b)[1..] == a[1..] + b;
    if |a| > 1 {
      JoinConcat(a[1..], b);
    }
  }

  lemma {:induction false} CommaInJoin(parts: seq<string>)
    requires |parts| >= 1 && Free(parts, ',')
    ensures ',' in Join(parts, ',') <==> |parts| >= 2
    decreases |parts|
  {
    if |parts| >= 2 {
      assert Join(parts, ',')[|parts[0]|] == ',';
    }
  }

  // ---------------------------------------------------------------------------
  // Balanced payloads
  // ---------------------------------------------------------------------------

  /** Nesting after a prefix: open parentheses, a pending escape, inside a character class. */
  datatype Nesting = Nesting(depth: nat, escaped: bool, inClass: bool)

  /** Whether `c` counts as itself, neither escaped nor bracketed. */
  predicate Active(n: Nesting, c: char) {
    !n.escaped && c != '\\' && c != '[' && c != ']' && !n.inClass
  }

  function After(v: string): Nesting {
    if v == "" then Nesting(0, false, false)
    else Advance(After(v[..|v| - 1]), v[|v| - 1])
  }

  function Advance(n: Nesting, c: char): Nesting {
    if n.escaped then n.(escaped := false)
    else if c == '\\' then n.(escaped := true)
    else if c == '[' then n.(inClass := true)
    else if c == ']' then n.(inClass := false)
    else if n.inClass then n
    else if c == '(' then n.(depth := n.depth + 1)
    else if c == ')' && n.depth > 0 then n.(depth := n.depth - 1)
    else n
  }

  /** The character at `i` closes the outermost parenthesis. */
  ghost predicate ClosesAt(v: string, i: nat)
    requires i < |v|
  {
    var n := After(v[..i]);
    Active(n, v[i]) && v[i] == ')' && n.depth == 1
  }

  /** The character at `i` cannot occur: an unmatched `)`, or text outside every parenthesis. */
  ghost predicate StrayAt(v: string, i: nat)
    requires i < |v|
  {
    var n := After(v[..i]);
    Active(n, v[i]) && n.depth == 0 && v[i] != '(' && !IsSpace(v[i])
  }

  ghost predicate OpenUpTo(v: string, end: nat)
    requires end <= |v|
  {
    forall i :: 0 <= i < end ==> !ClosesAt(v, i) && !StrayAt(v, i)
  }

  /** The first `end` characters are one balanced group. */
  ghost predicate Balanced(v: string, end: nat) {
    1 <= end <= |v| && ClosesAt(v, end - 1) && OpenUpTo(v, end - 1)
  }

  ghost function PayloadEnd(v: string): (r: Option<nat>)
    ensures r.Some? ==> Balanced(v, r.value)
    ensures r.None? ==> forall end: nat :: !Balanced(v, end)
  {
    if exists end: nat :: Balanced(v, end) then
      var end: nat :| Balanced(v, end);
      Some(end)
    else None
  }

  /** A payload has one end, and it depends only on the balanced prefix. */
  lemma EndDependsOnPrefix(v: string, w: string, end: nat)
    requires Balanced(v, end) && end <= |w| && w[..end] == v[..end]
    ensures Balanced(w, end) && PayloadEnd(w) == Some(end)
  {
    forall i | 0 <= i < end
      ensures (ClosesAt(w, i) <==> ClosesAt(v, i)) && (StrayAt(w, i) <==> StrayAt(v, i))
    {
      assert w[..end][..i] == w[..i] && v[..end][..i] == v[..i];
      assert w[..end][i] == w[i] && v[..end][i] == v[i];
    }
    assert Balanced(w, end);
    var other := PayloadEnd(w).value;
    assert ClosesAt(w, other - 1) && ClosesAt(w, end - 1);
  }

  /** The single pass over the characters. */
  method LogicalPayloadEnd(value: string) returns (r: Option<nat>)
    ensures r == PayloadEnd(value)
  {
    var depth: nat, escaped, inClass := 0, false, false;
    assert value[..0] == "";
    for i := 0 to |value|
      invariant After(value[..i]) == Nesting(depth, escaped, inClass)
      invariant OpenUpTo(value, i)
    {
      var c := value[i];
      assert value[..i + 1][..i] == value[..i];
      if escaped {
        escaped := false;
        continue;
      }
      if c == '\\' {
        escaped := true;
        continue;
      }
      if c == '[' {
        inClass := true;
        continue;
      }
      if c == ']' {
        inClass := false;
        continue;
      }
      if inClass {
        continue;
      }
      if c == '(' {
        depth := depth + 1;
      } else if c == ')' && depth == 0 {
        NoEndAfterStray(value, i);
        return None;
      } else if c == ')' {
        depth := depth - 1;
        if depth == 0 {
          assert Balanced(value, i + 1);
          EndDependsOnPrefix(value, value, i + 1);
          return Some(i + 1);
        }
      } else if depth == 0 && !IsSpace(c) {
        NoEndAfterStray(value, i);
        return None;
      }
    }
    NoEndWhileOpen(value);
    r := None;
  }

  lemma NoEndWhileOpen(v: string)
    requires OpenUpTo(v, |v|)
    ensures PayloadEnd(v) == None
  {
    var r := PayloadEnd(v);
    assert r.Some? ==> Balanced(v, r.value);
  }

  lemma NoEndAfterStray(v: string, i: nat)
    requires i < |v| && OpenUpTo(v, i) && StrayAt(v, i)
    ensures PayloadEnd(v) == None
  {
    forall end: nat ensures !Balanced(v, end) {
      if 1 <= end <= |v| && ClosesAt(v, end - 1) {
        assert end - 1 >= i;
        assert end - 1 != i;
      }
    }
  }
}
