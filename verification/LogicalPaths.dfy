/**
 Names and paths of bundle entries (filesystem/logical_path.hpp): ASCII folding,
 components, and paths as components between slashes.
 */
module LogicalPaths {

  function FoldChar(c: char): char {
    if 'A' <= c <= 'Z' then (c as int + 32) as char else c
  }

  function Fold(s: string): (f: string)
    ensures |f| == |s|
  {
    seq(|s|, i requires 0 <= i < |s| => FoldChar(s[i]))
  }

  method IsFolded(name: string) returns (r: bool)
    ensures r <==> Fold(name) == name
  {
    for i := 0 to |name|
      invariant forall k :: 0 <= k < i ==> FoldChar(name[k]) == name[k]
    {
      if FoldChar(name[i]) != name[i] {
        assert Fold(name)[i] != name[i];
        return false;
      }
    }
    return true;
  }

  method CaseEqual(a: string, b: string) returns (r: bool)
    ensures r <==> Fold(a) == Fold(b)
  {
    if |a| != |b| { return false; }
    for i := 0 to |a|
      invariant forall k :: 0 <= k < i ==> FoldChar(a[k]) == FoldChar(b[k])
    {
      if FoldChar(a[i]) != FoldChar(b[i]) {
        assert Fold(a)[i] != Fold(b)[i];
        return false;
      }
    }
    return true;
  }

  predicate NameChar(c: char) {
    c != '\0' && c != '/' && c != '\\' && c != ':' && c != '*' && c != '?'
  }

  predicate IsComponent(name: string) {
    name != "" && name != "." && name != ".." && forall i :: 0 <= i < |name| ==> NameChar(name[i])
  }

  method CheckComponent(name: string) returns (r: bool)
    ensures r <==> IsComponent(name)
  {
    if |name| == 0 || name == "." || name == ".." { return false; }
    for i := 0 to |name|
      invariant forall k :: 0 <= k < i ==> NameChar(name[k])
    {
      if !NameChar(name[i]) { return false; }
    }
    return true;
  }

  /** Where the first component of a path ends. */
  function Slash(path: string): (n: nat)
    ensures n <= |path| && (n < |path| ==> path[n] == '/') && forall i :: 0 <= i < n ==> path[i] != '/'
  {
    if path == "" || path[0] == '/' then 0 else Slash(path[1..]) + 1
  }

  /** The components between slashes; there is always one more than there are slashes. */
  function Components(path: string): (cs: seq<string>)
    ensures |cs| > 0
    decreases |path|
  {
    var n := Slash(path);
    if n == |path| then [path] else [path[..n]] + Components(path[n + 1..])
  }

  predicate IsFilePath(path: string) {
    path != "" && forall i :: 0 <= i < |Components(path)| ==> IsComponent(Components(path)[i])
  }

  /** Scanning on from inside a component does not change where it ends. */
  lemma {:induction false} SlashAt(path: string, n: nat)
    requires n <= |path| && (n < |path| ==> path[n] == '/') && forall i :: 0 <= i < n ==> path[i] != '/'
    ensures Slash(path) == n
  {
  }

  /** The component from `start` to `i`, and the components after it. */
  lemma NextComponent(path: string, start: nat, i: nat)
    requires start <= i <= |path| && (i < |path| ==> path[i] == '/') && forall k :: start <= k < i ==> path[k] != '/'
    ensures Components(path[start..]) == [path[start..i]] + (if i == |path| then [] else Components(path[i + 1..]))
  {
    var rest := path[start..];
    SlashAt(rest, i - start);
    assert rest[..i - start] == path[start..i];
    if i < |path| { assert rest[i - start + 1..] == path[i + 1..]; } else { assert rest == path[start..i]; }
  }

  /** A scan of a path has read these components and stands at the start of the next. */
  ghost predicate Walked(path: string, before: seq<string>, start: nat) {
    if start <= |path| then Components(path) == before + Components(path[start..]) else start == |path| + 1 && Components(path) == before
  }

  lemma WalkBegins(path: string)
    ensures Walked(path, [], 0)
  {
    assert path[0..] == path && [] + Components(path) == Components(path);
  }

  lemma {:induction false} WalkSteps(path: string, before: seq<string>, start: nat, i: nat)
    requires Walked(path, before, start) && start <= i <= |path| && (i < |path| ==> path[i] == '/') && forall k :: start <= k < i ==> path[k] != '/'
    ensures Walked(path, before + [path[start..i]], i + 1)
    ensures |before| < |Components(path)| && Components(path)[|before|] == path[start..i] && Components(path)[..|before|] == before
  {
    NextComponent(path, start, i);
    var rest := if i == |path| then [] else Components(path[i + 1..]);
    hide Components;
    assert Components(path) == before + ([path[start..i]] + rest);
    assert before + ([path[start..i]] + rest) == before + [path[start..i]] + rest;
    if i == |path| { assert before + [path[start..i]] + [] == before + [path[start..i]]; }
  }

  lemma {:induction false} WalkEnds(path: string, before: seq<string>)
    requires Walked(path, before, |path| + 1)
    ensures Components(path) == before
  {
  }

  method CheckFilePath(path: string) returns (r: bool)
    ensures r <==> IsFilePath(path)
  {
    hide Components, IsComponent, Walked;
    if |path| == 0 { return false; }
    var start := 0;
    WalkBegins(path);
    ghost var before: seq<string> := [];
    for i := 0 to |path| + 1
      invariant start <= i && Walked(path, before, start) && (i == |path| + 1 ==> start == i)
      invariant forall k :: start <= k < i && k < |path| ==> path[k] != '/'
      invariant forall k :: 0 <= k < |before| ==> IsComponent(before[k])
    {
      if i == |path| || path[i] == '/' {
        WalkSteps(path, before, start, i);
        var ok := CheckComponent(path[start..i]);
        if !ok { return false; }
        before := before + [path[start..i]];
        start := i + 1;
      }
    }
    WalkEnds(path, before);
    return true;
  }
}
