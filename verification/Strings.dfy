/** `str::split`, joining, and the relative paths built from them. */
module Strings {

  /** All fields between separators; the empty string has one empty field. */
  function Split(s: string, sep: char): (parts: seq<string>)
    ensures |parts| >= 1
  {
    if s == "" then [""]
    else
      var rest := Split(s[1..], sep);
      if s[0] == sep then [""] + rest else [[s[0]] + rest[0]] + rest[1..]
  }

  function Join(parts: seq<string>, sep: char): string
    requires |parts| >= 1
  {
    if |parts| == 1 then parts[0] else parts[0] + [sep] + Join(parts[1..], sep)
  }

  ghost predicate Free(parts: seq<string>, sep: char) {
    forall i :: 0 <= i < |parts| ==> sep !in parts[i]
  }

  lemma {:induction false} SplitField(s: string, rest: string, sep: char)
    requires sep !in s
    ensures Split(s, sep) == [s]
    ensures Split(s + [sep] + rest, sep) == [s] + Split(rest, sep)
    decreases |s|
  {
    if s == "" {
      assert (s + [sep] + rest)[1..] == rest;
    } else {
      SplitField(s[1..], rest, sep);
      assert (s + [sep] + rest)[1..] == s[1..] + [sep] + rest;
      assert s == [s[0]] + s[1..];
    }
  }

  /** Splitting undoes joining for separator-free fields. */
  lemma {:induction false} SplitJoin(parts: seq<string>, sep: char)
    requires |parts| >= 1 && Free(parts, sep)
    ensures Split(Join(parts, sep), sep) == parts
    decreases |parts|
  {
    SplitField(parts[0], if |parts| == 1 then "" else Join(parts[1..], sep), sep);
    if |parts| > 1 {
      SplitJoin(parts[1..], sep);
    }
  }

  /** Joining undoes splitting for every string. */
  lemma {:induction false} JoinSplit(s: string, sep: char)
    ensures Join(Split(s, sep), sep) == s
    ensures Free(Split(s, sep), sep)
    decreases |s|
  {
    if s != "" {
      JoinSplit(s[1..], sep);
      var rest := Split(s[1..], sep);
      if s[0] == sep {
        assert ([""] + rest)[1..] == rest;
      } else if |rest| > 1 {
        var parts := [[s[0]] + rest[0]] + rest[1..];
        assert parts[1..] == rest[1..];
        assert Join(parts, sep) == [s[0]] + Join(rest, sep);
      }
    }
  }

  // ---------------------------------------------------------------------------
  // Unix path syntax (`std::path::Path` on '/'-separated strings)
  // ---------------------------------------------------------------------------

  predicate Absolute(path: string) {
    path != "" && path[0] == '/'
  }

  predicate HasParentDir(path: string) {
    ".." in Split(path, '/')
  }

  /** Non-empty, relative, and every component normal: an inner `.` or empty field is not
      a component, a leading `.` and any `..` are. */
  predicate NormalRelative(path: string) {
    path != "" && !Absolute(path) && Split(path, '/')[0] != "." && !HasParentDir(path)
  }

  /** A file name as it appears in a canonical path. */
  predicate NormalName(name: string) {
    name != "" && name != "." && name != ".." && '/' !in name
  }

  ghost predicate NormalNames(names: seq<string>) {
    forall i :: 0 <= i < |names| ==> NormalName(names[i])
  }

  lemma JoinedNamesAreNormal(names: seq<string>)
    requires |names| >= 1 && NormalNames(names)
    ensures NormalRelative(Join(names, '/'))
    ensures Split(Join(names, '/'), '/') == names
  {
    SplitJoin(names, '/');
    var s := Join(names, '/');
    assert s != "" && s[0] == names[0][0];
  }

  /** `path_string`: backslashes become slashes. */
  function SlashForm(path: string): (r: string)
    ensures |r| == |path|
    ensures forall i :: 0 <= i < |r| ==> r[i] == if path[i] == '\\' then '/' else path[i]
    ensures '\\' !in path ==> r == path
    ensures '\\' !in r
  {
    seq(|path|, i requires 0 <= i < |path| => if path[i] == '\\' then '/' else path[i])
  }
}
