/** The string-path extractors of `APISpecDiffDetector` (diff_detector.py,
    `_is_operation_change` to `_extract_components`): they recover an API path,
    an HTTP method or a component name from a printed diff location by
    splitting, stripping and substring tests. */
module Extractors {
  import opened Results
  import opened PyStr
  import opened PyJson
  import opened Seqs
  import opened DeepDiffOutput

  /** The HTTP methods OpenAPI allows on a path, in the detector's order. */
  const HttpMethods: seq<string> := ["get", "post", "put", "delete", "options", "head", "patch", "trace"]

  /** The marker `['m']` that the detector looks for to find method `m`. */
  function MethodPattern(m: string): string {
    "['" + m + "']"
  }

  /** Some method of `methods` has its marker in `s` (a search over the list). */
  function HasMethodPattern(s: string, methods: seq<string>): (b: bool)
    ensures b <==> exists k :: 0 <= k < |methods| && Contains(s, MethodPattern(methods[k]))
    decreases |methods|
  {
    if methods == [] then false
    else if Contains(s, MethodPattern(methods[0])) then true
    else
      var found := HasMethodPattern(s, methods[1..]);
      assert forall k :: 1 <= k < |methods| ==> methods[k] == methods[1..][k - 1];
      found
  }

  /** The first method of `methods` whose marker is in `s`. */
  function FirstMethod(s: string, methods: seq<string>): (m: string)
    requires HasMethodPattern(s, methods)
    ensures m in methods && Contains(s, MethodPattern(m))
    decreases |methods|
  {
    if Contains(s, MethodPattern(methods[0])) then methods[0] else FirstMethod(s, methods[1..])
  }

  /** `_is_operation_change`: the location is under `root['paths']` and carries the
      marker of one of the eight HTTP methods. */
  function IsOperationChange(s: string): (b: bool)
    ensures b <==> Contains(s, "root['paths']")
                   && exists k :: 0 <= k < |HttpMethods| && Contains(s, MethodPattern(HttpMethods[k]))
  {
    Contains(s, "root['paths']") && HasMethodPattern(s, HttpMethods)
  }

  /** Python's `s.split(sep)[1]`, which exists whenever `sep` occurs in `s`. */
  function SecondPiece(s: string, sep: string): string
    requires sep != "" && Contains(s, sep)
  {
    SplitAtOccurrence(s, sep);
    Split(s, sep)[1]
  }

  /** Python's `if x` for an optional string: present and non-empty. */
  predicate Present(x: Option<string>) {
    x.Some? && x.value != ""
  }

  /** `_extract_operation_info`: splits the location on `']`; with at least three
      fragments, the path is what follows the first `['` of fragment 1 when that
      fragment holds `['/`, and the method is what follows the first `['` of
      fragment 2 when it holds `['`.  The method is not checked against
      `HttpMethods`. */
  function ExtractOperationInfo(s: string): (r: (Option<string>, Option<string>))
    ensures |Split(s, "']")| < 3 ==> r == (None, None)
    ensures r.0.Some? ==> Contains(s, "['/")
  {
    var parts := Split(s, "']");
    if |parts| >= 3 then
      var path :=
        if Contains(parts[1], "['/") then
          PathMarkerOpens(parts[1]);
          Some(SecondPiece(parts[1], "['"))
        else None;
      var verb := if Contains(parts[2], "['") then Some(SecondPiece(parts[2], "['")) else None;
      SplitJoin(s, "']");
      PieceInJoin(parts, 1, "']");
      (path, verb)
    else (None, None)
  }

  /** Every piece of a join occurs in it. */
  lemma {:induction false} PieceInJoin(parts: seq<string>, k: nat, sep: string)
    requires k < |parts|
    ensures forall pat :: Contains(parts[k], pat) ==> Contains(Join(parts, sep), pat)
    decreases |parts|
  {
    if |parts| > 1 {
      var rest := Join(parts[1..], sep);
      if k > 0 {
        PieceInJoin(parts[1..], k - 1, sep);
      }
      forall pat | Contains(parts[k], pat)
        ensures Contains(Join(parts, sep), pat)
      {
        if k == 0 {
          ContainedInConcat(parts[0], sep + rest, pat);
          assert Join(parts, sep) == parts[0] + (sep + rest);
        } else {
          ContainedInConcatRight(parts[0] + sep, rest, pat);
        }
      }
    }
  }

  lemma ContainedInConcat(a: string, b: string, pat: string)
    requires Contains(a, pat)
    ensures Contains(a + b, pat)
  {
    var i :| OccursAt(a, pat, i);
    assert (a + b)[i..i + |pat|] == a[i..i + |pat|];
    assert OccursAt(a + b, pat, i);
  }

  lemma ContainedInConcatRight(a: string, b: string, pat: string)
    requires Contains(b, pat)
    ensures Contains(a + b, pat)
  {
    var i :| OccursAt(b, pat, i);
    assert (a + b)[|a| + i..|a| + i + |pat|] == b[i..i + |pat|];
    assert OccursAt(a + b, pat, |a| + i);
  }

  /** A fragment holding the path marker `['/` holds `['`. */
  lemma PathMarkerOpens(s: string)
    requires Contains(s, "['/")
    ensures Contains(s, "['")
  {
    assert "['/" == "['" + "/";
    ContainsParts(s, "['", "/");
  }

  /** Upper-cased method, a space, then the path: how the detector names an operation. */
  function FormatOperation(verb: string, path: string): string {
    Upper(verb) + " " + path
  }

  /** The path and the operation name of a location from which
      `_extract_operation_info` gets both a non-empty path and a non-empty method
      (the `if path and method` test of the callers). */
  function OperationOf(s: string): (r: Option<(string, string)>)
    ensures r.Some? ==> r.value.0 != "" && Contains(s, "['/")
  {
    var (path, verb) := ExtractOperationInfo(s);
    if Present(path) && Present(verb) then Some((path.value, FormatOperation(verb.value, path.value))) else None
  }

  /** The path and method recorded by the loop of `_extract_operation_from_key`
      after it has looked at `parts`: a fragment holding `['/` sets the path,
      otherwise a fragment holding some marker `['m']` sets the method to the
      first such `m`; later fragments overwrite earlier ones. */
  function ScanFragments(parts: seq<string>): (Option<string>, Option<string>)
    decreases |parts|
  {
    if parts == [] then (None, None)
    else
      var (path, verb) := ScanFragments(parts[..|parts| - 1]);
      var part := parts[|parts| - 1];
      if Contains(part, "['/") then
        PathMarkerOpens(part);
        (Some(SecondPiece(part, "['")), verb)
      else if HasMethodPattern(part, HttpMethods) then (path, Some(FirstMethod(part, HttpMethods)))
      else (path, verb)
  }

  /** What `_extract_operation_from_key` returns, as a function of the key. */
  function OperationFromKey(key: string): Option<string> {
    if Contains(key, "paths") then
      var (path, verb) := ScanFragments(Split(key, "']"));
      if Present(path) && Present(verb) then Some(FormatOperation(verb.value, path.value)) else None
    else None
  }

  /** A fragment without `']` holds no method marker, since every marker ends in `']`. */
  lemma {:induction false} NoMarkerWithoutClose(part: string, methods: seq<string>)
    requires !Contains(part, "']")
    ensures !HasMethodPattern(part, methods)
    decreases |methods|
  {
    if methods != [] {
      var m := methods[0];
      assert MethodPattern(m) == ("['" + m) + "']";
      if Contains(part, MethodPattern(m)) {
        ContainsParts(part, "['" + m, "']");
      }
      NoMarkerWithoutClose(part, methods[1..]);
    }
  }

  /** Over fragments that lack `']`, the scan never records a method. */
  lemma {:induction false} ScanFindsNoMethod(parts: seq<string>)
    requires forall k :: 0 <= k < |parts| ==> !Contains(parts[k], "']")
    ensures ScanFragments(parts).1 == None
    decreases |parts|
  {
    if parts != [] {
      ScanFindsNoMethod(parts[..|parts| - 1]);
      NoMarkerWithoutClose(parts[|parts| - 1], HttpMethods);
    }
  }

  /** `_extract_operation_from_key` can never succeed: after the key is split on
      `']` no fragment can hold a marker `['m']`, so the method stays None. */
  lemma OperationFromKeyNeverSucceeds(key: string)
    ensures OperationFromKey(key) == None
  {
    if Contains(key, "paths") {
      SplitPiecesLackSeparator(key, "']");
      ScanFindsNoMethod(Split(key, "']"));
    }
  }

  /** The inner loop of `_extract_operation_from_key`: the first method of
      `methods` whose marker `['m']` is in the fragment. */
  method FindMethod(part: string, methods: seq<string>) returns (m: string)
    requires HasMethodPattern(part, methods)
    ensures m == FirstMethod(part, methods)
  {
    var j := 0;
    while j < |methods|
      invariant 0 <= j <= |methods|
      invariant HasMethodPattern(part, methods[j..])
      invariant FirstMethod(part, methods) == FirstMethod(part, methods[j..])
    {
      if Contains(part, MethodPattern(methods[j])) {
        return methods[j];
      }
      assert methods[j..][1..] == methods[j + 1..];
      j := j + 1;
    }
    assert false;
  }

  /** `_extract_operation_from_key`, with its loop over the fragments of the key. */
  method ExtractOperationFromKey(key: string) returns (r: Option<string>)
    ensures r == OperationFromKey(key)
    ensures r == None
  {
    r := None;
    if Contains(key, "paths") {
      var parts := Split(key, "']");
      var path: Option<string> := None;
      var verb: Option<string> := None;
      var i := 0;
      while i < |parts|
        invariant 0 <= i <= |parts|
        invariant (path, verb) == ScanFragments(parts[..i])
      {
        var part := parts[i];
        assert parts[..i + 1][..i] == parts[..i];
        if Contains(part, "['/") {
          PathMarkerOpens(part);
          path := Some(SecondPiece(part, "['"));
        } else if HasMethodPattern(part, HttpMethods) {
          var m := FindMethod(part, HttpMethods);
          verb := Some(m);
        }
        assert (path, verb) == ScanFragments(parts[..i + 1]);
        i := i + 1;
      }
      assert parts[..|parts|] == parts;
      if Present(path) && Present(verb) {
        r := Some(FormatOperation(verb.value, path.value));
      }
    }
    OperationFromKeyNeverSucceeds(key);
  }

  /** What `_extract_parameter_info` returns: the operation of the key followed by
      " parameter", when the key names one and mentions `parameters`. */
  function ParameterInfo(key: string): Option<string> {
    match OperationFromKey(key)
    case Some(op) => if op != "" && Contains(key, "parameters") then Some(op + " parameter") else None
    case None => None
  }

  /** `_extract_parameter_info`; it never finds anything, because the operation
      lookup it relies on never succeeds. */
  method ExtractParameterInfo(key: string) returns (r: Option<string>)
    ensures r == ParameterInfo(key)
    ensures r == None
  {
    r := None;
    var operation := ExtractOperationFromKey(key);
    match operation {
      case Some(op) =>
        if op != "" && Contains(key, "parameters") {
          r := Some(op + " parameter");
        }
      case None =>
    }
  }

  /** What `_check_if_required_parameter` returns for a newly added location: its
      operation followed by " new parameter".  The specification document it is
      handed is not consulted. */
  function NewParameterInfo(item: string): Option<string> {
    match OperationFromKey(item)
    case Some(op) => if op != "" then Some(op + " new parameter") else None
    case None => None
  }

  /** `_check_if_required_parameter`; like `ExtractParameterInfo` it never finds anything. */
  method CheckIfRequiredParameter(item: string) returns (r: Option<string>)
    ensures r == NewParameterInfo(item)
    ensures r == None
  {
    r := None;
    var operation := ExtractOperationFromKey(item);
    match operation {
      case Some(op) =>
        if op != "" {
          r := Some(op + " new parameter");
        }
      case None =>
    }
  }

  /** A location printed from keys all plain enough to be recovered: the method
      slot and the path slot of `_extract_operation_info` come back out. */
  lemma OperationInfoOfRendered(path: string, verb: string, more: seq<string>)
    requires SimpleKey(path) && path[0] == '/' && SimpleKey(verb)
    requires forall k :: 0 <= k < |more| ==> SimpleKey(more[k])
    ensures ExtractOperationInfo(Render(["paths", path, verb] + more)) == (Some(path), Some(verb))
    ensures OperationOf(Render(["paths", path, verb] + more)) == Some((path, FormatOperation(verb, path)))
  {
    RenderedOperation(path, verb, more);
    OperationFragments(path, verb, Segments(more));
    var a2 := "['" + path;
    assert OccursAt(a2, "['/", 0);
    SecondPieceAfterOpen(path);
    SecondPieceAfterOpen(verb);
  }

  /** Splitting an operation location on `']` leaves `root['paths`, `['path`,
      `['method`, then the fragments of the rest. */
  lemma OperationFragments(path: string, verb: string, tail: string)
    requires SimpleKey(path) && SimpleKey(verb)
    ensures Split("root['paths" + "']" + ("['" + path + "']" + ("['" + verb + "']" + tail)), "']")
            == ["root['paths", "['" + path, "['" + verb] + Split(tail, "']")
  {
    var a1, a2, a3 := "root['paths", "['" + path, "['" + verb;
    MissingCharExcludes(a1 + "'", "']", ']');
    MissingCharExcludes(a2 + "'", "']", ']');
    MissingCharExcludes(a3 + "'", "']", ']');
    assert "']"[..1] == "'";
    SplitThree(a1, a2, a3, tail, "']");
  }

  /** How a location under an operation is printed. */
  lemma RenderedOperation(path: string, verb: string, more: seq<string>)
    ensures Render(["paths", path, verb] + more)
            == "root['paths" + "']" + ("['" + path + "']" + ("['" + verb + "']" + Segments(more)))
  {
    assert ["paths", path, verb] + more == ["paths"] + ([path] + ([verb] + more));
    SegmentsCons(verb, more);
    SegmentsCons(path, [verb] + more);
    SegmentsCons("paths", [path] + ([verb] + more));
  }

  /** The piece that follows `['` in `['k`, for a key free of brackets. */
  lemma SecondPieceAfterOpen(k: string)
    requires SimpleKey(k)
    ensures Contains("['" + k, "['") && SecondPiece("['" + k, "['") == k
  {
    assert OccursAt("['" + k, "['", 0);
    assert "" + "['" + k == "['" + k;
    SplitConcat("", "['", k);
    MissingCharExcludes(k, "['", '[');
    SplitWithoutSeparator(k, "['");
  }

  /** A location printed as `root['paths'][path][m]...` with `m` an HTTP method
      counts as an operation change. */
  lemma RenderedOperationIsOperationChange(path: string, verb: string, more: seq<string>)
    requires verb in HttpMethods
    ensures IsOperationChange(Render(["paths", path, verb] + more))
  {
    var s := Render(["paths", path, verb] + more);
    var head := "root['paths']";
    var mid := "['" + path + "']";
    RenderedOperation(path, verb, more);
    assert s == head + (mid + (MethodPattern(verb) + Segments(more)));
    assert OccursAt(s, head, 0);
    assert OccursAt(MethodPattern(verb), MethodPattern(verb), 0);
    ContainedInConcat(MethodPattern(verb), Segments(more), MethodPattern(verb));
    ContainedInConcatRight(mid, MethodPattern(verb) + Segments(more), MethodPattern(verb));
    ContainedInConcatRight(head, mid + (MethodPattern(verb) + Segments(more)), MethodPattern(verb));
    var k :| 0 <= k < |HttpMethods| && HttpMethods[k] == verb;
  }

  /** The prefix `root['kp']` that `_extract_paths` requires a location to start with. */
  function PathPrefix(keyPrefix: string): string {
    "root['" + keyPrefix + "']"
  }

  /** The characters `strip("['")` removes. */
  const Quoting: set<char> := {'[', '\''}

  /** What `_extract_paths` takes from one location: when it starts with the
      prefix and splitting on `]` leaves at least three fragments, fragment 1
      with brackets and quotes stripped from both ends. */
  function PathOf(item: string, keyPrefix: string): (r: Option<string>)
    ensures r.Some? ==> StartsWith(item, PathPrefix(keyPrefix)) && |Split(item, "]")| >= 3
    ensures r.Some? && r.value != "" ==> r.value[0] !in Quoting && r.value[|r.value| - 1] !in Quoting
  {
    if StartsWith(item, PathPrefix(keyPrefix)) then
      var parts := Split(item, "]");
      if |parts| >= 3 then Some(Strip(parts[1], Quoting)) else None
    else None
  }

  /** `_extract_paths` as a function: the recovered paths, in the order of the items. */
  function PathsIn(items: seq<string>, keyPrefix: string): seq<string> {
    FilterMap(items, item => PathOf(item, keyPrefix))
  }

  /** `_extract_paths`, with its loop over the items of the diff collection. */
  method ExtractPaths(diffSet: seq<string>, keyPrefix: string) returns (results: seq<string>)
    ensures results == PathsIn(diffSet, keyPrefix)
  {
    results := [];
    if diffSet == [] {
      return;
    }
    var i := 0;
    while i < |diffSet|
      invariant 0 <= i <= |diffSet|
      invariant results == PathsIn(diffSet[..i], keyPrefix)
    {
      var item := diffSet[i];
      assert diffSet[..i + 1][..i] == diffSet[..i];
      if StartsWith(item, PathPrefix(keyPrefix)) {
        var parts := Split(item, "]");
        if |parts| >= 3 {
          results := results + [Strip(parts[1], Quoting)];
        }
      }
      i := i + 1;
    }
    assert diffSet[..|diffSet|] == diffSet;
  }

  /** A location `root['kp'][p]...` printed from plain keys yields `p`. */
  lemma PathOfRendered(keyPrefix: string, path: string, more: seq<string>)
    requires SimpleKey(keyPrefix) && SimpleKey(path)
    requires forall k :: 0 <= k < |more| ==> SimpleKey(more[k])
    ensures PathOf(Render([keyPrefix, path] + more), keyPrefix) == Some(path)
  {
    var a, b := "root['" + keyPrefix + "'", "['" + path + "'";
    var tail := Segments(more);
    RenderedPath(keyPrefix, path, more);
    PathFragments(a, b, tail);
    assert OccursAt(Render([keyPrefix, path] + more), PathPrefix(keyPrefix), 0);
    StripPadding("['", path, "'", Quoting);
  }

  /** How a location under a path is printed, cut at its closing brackets. */
  lemma RenderedPath(keyPrefix: string, path: string, more: seq<string>)
    ensures Render([keyPrefix, path] + more)
            == ("root['" + keyPrefix + "'") + "]" + (("['" + path + "'") + "]" + Segments(more))
    ensures Render([keyPrefix, path] + more) == PathPrefix(keyPrefix) + (("['" + path + "'") + "]" + Segments(more))
  {
    var tail := Segments(more);
    assert [keyPrefix, path] + more == [keyPrefix] + ([path] + more);
    SegmentsCons(path, more);
    SegmentsCons(keyPrefix, [path] + more);
    var s := "root" + ("['" + keyPrefix + "']" + ("['" + path + "']" + tail));
    assert Render([keyPrefix, path] + more) == s;
    assert s == ("root['" + keyPrefix + "'") + "]" + (("['" + path + "'") + "]" + tail);
    assert s == PathPrefix(keyPrefix) + (("['" + path + "'") + "]" + tail);
  }

  /** Splitting on `]` separates two bracket-free fragments. */
  lemma PathFragments(a: string, b: string, tail: string)
    requires ']' !in a && ']' !in b
    ensures Split(a + "]" + (b + "]" + tail), "]") == [a, b] + Split(tail, "]")
  {
    assert a + "]"[..0] == a && b + "]"[..0] == b;
    MissingCharExcludes(a, "]", ']');
    MissingCharExcludes(b, "]", ']');
    SplitTwo(a, b, tail, "]");
  }

  /** The paths found in a location collection do not depend on the order in
      which the collection is walked. */
  lemma PathsInOrderFree(items: seq<string>, others: seq<string>, keyPrefix: string)
    requires multiset(items) == multiset(others)
    ensures multiset(PathsIn(items, keyPrefix)) == multiset(PathsIn(others, keyPrefix))
  {
    FilterMapPermutation(items, others, item => PathOf(item, keyPrefix));
  }

  /** A path is reported exactly when some item yields it. */
  lemma PathsInMember(items: seq<string>, keyPrefix: string, path: string)
    ensures path in PathsIn(items, keyPrefix) <==> exists i :: 0 <= i < |items| && PathOf(items[i], keyPrefix) == Some(path)
  {
    FilterMapMember(items, item => PathOf(item, keyPrefix), path);
  }

  /** The prefix `root['group']['type']` that `_extract_components` builds from a
      dotted key prefix such as `components.schemas`. */
  function ComponentPrefix(keyPrefix: string): (prefix: string)
    requires Contains(keyPrefix, ".")
    ensures |prefix| >= 6 && prefix[..6] == "root['"
  {
    SplitAtOccurrence(keyPrefix, ".");
    var names := Split(keyPrefix, ".");
    "root['" + names[0] + "']['" + names[1] + "']"
  }

  /** What `_extract_components` takes from one location: when the prefix occurs
      in it, the text after the first occurrence is split on `'`; with at least
      three fragments, fragment 1 is the component name. */
  function ComponentOf(item: string, keyPrefix: string): (r: Option<string>)
    requires Contains(keyPrefix, ".")
    ensures r.Some? ==> Contains(item, ComponentPrefix(keyPrefix))
  {
    var prefix := ComponentPrefix(keyPrefix);
    if Contains(item, prefix) then
      var parts := Split(SecondPiece(item, prefix), "'");
      if |parts| >= 3 then Some(parts[1]) else None
    else None
  }

  /** `_extract_components` as a function: the component names, in the order of the items. */
  function ComponentsIn(items: seq<string>, keyPrefix: string): seq<string>
    requires Contains(keyPrefix, ".")
  {
    FilterMap(items, item => ComponentOf(item, keyPrefix))
  }

  /** `_extract_components`, with its loop over the items of the diff collection. */
  method ExtractComponents(diffSet: seq<string>, keyPrefix: string) returns (results: seq<string>)
    requires Contains(keyPrefix, ".")
    ensures results == ComponentsIn(diffSet, keyPrefix)
  {
    results := [];
    if diffSet == [] {
      return;
    }
    SplitAtOccurrence(keyPrefix, ".");
    var names := Split(keyPrefix, ".");
    var prefix := "root['" + names[0] + "']['" + names[1] + "']";
    var i := 0;
    while i < |diffSet|
      invariant 0 <= i <= |diffSet|
      invariant results == ComponentsIn(diffSet[..i], keyPrefix)
    {
      var item := diffSet[i];
      assert diffSet[..i + 1][..i] == diffSet[..i];
      if Contains(item, prefix) {
        var parts := Split(SecondPiece(item, prefix), "'");
        if |parts| >= 3 {
          results := results + [parts[1]];
        }
      }
      i := i + 1;
    }
    assert diffSet[..|diffSet|] == diffSet;
  }

  /** A pattern holding `[` right after something other than `]` cannot occur in
      a text where every inner `[` follows a `]`. */
  lemma UnclosedOpenAbsent(s: string, pat: string, q: nat)
    requires OpenAfterClose(s)
    requires 0 < q < |pat| && pat[q] == '[' && pat[q - 1] != ']'
    ensures !Contains(s, pat)
  {
    forall j | 0 <= j && j + |pat| <= |s|
      ensures !OccursAt(s, pat, j)
    {
      var w := s[j..j + |pat|];
      assert w[q] == s[j + q] && w[q - 1] == s[j + q - 1];
    }
  }

  /** A location `root['g']['c'][name]...` printed from plain keys yields `name`
      for the key prefix `g.c`. */
  lemma ComponentOfRendered(group: string, kind: string, name: string, more: seq<string>)
    requires SimpleKey(group) && SimpleKey(kind) && SimpleKey(name)
    requires '.' !in group && '.' !in kind
    requires forall k :: 0 <= k < |more| ==> SimpleKey(more[k])
    ensures Contains(group + "." + kind, ".")
    ensures ComponentOf(Render([group, kind, name] + more), group + "." + kind) == Some(name)
  {
    var keyPrefix := group + "." + kind;
    DottedPrefix(group, kind);
    var prefix := "root['" + group + "']['" + kind + "']";
    assert ComponentPrefix(keyPrefix) == prefix;
    var tail := Segments([name] + more);
    RenderedComponent(group, kind, name, more);
    SegmentsOpenAfterClose([name] + more);
    assert prefix[4] == '[' && prefix[3] == 't';
    UnclosedOpenAbsent(tail, prefix, 4);
    SplitLeading(prefix, tail);
    NameFragments(name, Segments(more));
  }

  /** A dotted key prefix `g.c` names the group `g` and the kind `c`. */
  lemma DottedPrefix(group: string, kind: string)
    requires '.' !in group && '.' !in kind
    ensures Contains(group + "." + kind, ".")
    ensures Split(group + "." + kind, ".") == [group, kind]
  {
    assert group + "."[..0] == group;
    MissingCharExcludes(group, ".", '.');
    MissingCharExcludes(kind, ".", '.');
    SplitOnce(group, kind, ".");
  }

  /** How a location under a component is printed: the component prefix, then
      the tail that starts with the component name. */
  lemma RenderedComponent(group: string, kind: string, name: string, more: seq<string>)
    ensures Render([group, kind, name] + more)
            == ("root['" + group + "']['" + kind + "']") + Segments([name] + more)
    ensures Segments([name] + more) == "[" + "'" + (name + "'" + ("]" + Segments(more)))
  {
    assert [group, kind, name] + more == [group] + ([kind] + ([name] + more));
    SegmentsCons(name, more);
    SegmentsCons(kind, [name] + more);
    SegmentsCons(group, [kind] + ([name] + more));
  }

  /** Splitting `['name']...` on `'` leaves `[`, then the name. */
  lemma NameFragments(name: string, rest: string)
    requires SimpleKey(name)
    ensures |Split("[" + "'" + (name + "'" + ("]" + rest)), "'")| >= 3
    ensures Split("[" + "'" + (name + "'" + ("]" + rest)), "'")[1] == name
  {
    assert "[" + "'"[..0] == "[" && name + "'"[..0] == name;
    MissingCharExcludes("[", "'", '\'');
    MissingCharExcludes(name, "'", '\'');
    SplitTwo("[", name, "]" + rest, "'");
  }

  /** The components found in a location collection do not depend on the order
      in which the collection is walked. */
  lemma ComponentsInOrderFree(items: seq<string>, others: seq<string>, keyPrefix: string)
    requires Contains(keyPrefix, ".")
    requires multiset(items) == multiset(others)
    ensures multiset(ComponentsIn(items, keyPrefix)) == multiset(ComponentsIn(others, keyPrefix))
  {
    FilterMapPermutation(items, others, item => ComponentOf(item, keyPrefix));
  }

  /** Python's `m in path_item` came out true. */
  predicate Offers(pathItem: Json, verb: string) {
    StrIn(verb, pathItem) == Ok(true)
  }

  /** The operations `_get_all_operations` lists for one path: `METHOD path` for
      each method of `methods`, in order, that `in` finds in the path item. */
  function MethodsOf(path: string, pathItem: Json, methods: seq<string>): (r: Result<seq<string>>)
    ensures !Container(pathItem) && methods != [] ==> r == Raised(TypeError)
    decreases |methods|
  {
    if methods == [] then Ok([])
    else
      var init :- MethodsOf(path, pathItem, methods[..|methods| - 1]);
      var verb := methods[|methods| - 1];
      var found :- StrIn(verb, pathItem);
      Ok(if found then init + [FormatOperation(verb, path)] else init)
  }

  /** The operations `_get_all_operations` lists for a dict of paths, in order. */
  function OperationsOfPaths(paths: seq<(string, Json)>, methods: seq<string>): Result<seq<string>>
    decreases |paths|
  {
    if paths == [] then Ok([])
    else
      var init :- OperationsOfPaths(paths[..|paths| - 1], methods);
      var ops :- MethodsOf(paths[|paths| - 1].0, paths[|paths| - 1].1, methods);
      Ok(init + ops)
  }

  /** What `_get_all_operations` returns or raises: `spec.get('paths', {})`
      needs a dict, `.items()` needs the paths to be a dict, and `in` needs each
      path item to be a container.  `methods` is the detector's method list. */
  function AllOperations(spec: Json, methods: seq<string>): (r: Result<seq<string>>)
    ensures !spec.Obj? ==> r == Raised(AttributeError)
    ensures spec.Obj? && "paths" !in KeysOf(spec.fields) ==> r == Ok([])
    ensures spec.Obj? && Lookup(spec.fields, "paths").Some? && !Lookup(spec.fields, "paths").value.Obj?
            ==> r == Raised(AttributeError)
  {
    var paths :- Get(spec, "paths", Obj([]));
    match paths
    case Obj(fields) => OperationsOfPaths(fields, methods)
    case _ => Raised(AttributeError)
  }

  /** An exception raised on a prefix of the methods is the result for all of them. */
  lemma {:induction false} MethodsOfRaisedEarly(path: string, pathItem: Json, methods: seq<string>, k: nat)
    requires k <= |methods| && MethodsOf(path, pathItem, methods[..k]).Raised?
    ensures MethodsOf(path, pathItem, methods) == MethodsOf(path, pathItem, methods[..k])
    decreases |methods| - k
  {
    if k < |methods| {
      var init := methods[..|methods| - 1];
      assert init[..k] == methods[..k];
      MethodsOfRaisedEarly(path, pathItem, init, k);
    } else {
      assert methods[..k] == methods;
    }
  }

  /** An exception raised on a prefix of the paths is the result for all of them. */
  lemma {:induction false} OperationsRaisedEarly(paths: seq<(string, Json)>, methods: seq<string>, k: nat)
    requires k <= |paths| && OperationsOfPaths(paths[..k], methods).Raised?
    ensures OperationsOfPaths(paths, methods) == OperationsOfPaths(paths[..k], methods)
    decreases |paths| - k
  {
    if k < |paths| {
      var init := paths[..|paths| - 1];
      assert init[..k] == paths[..k];
      OperationsRaisedEarly(init, methods, k);
    } else {
      assert paths[..k] == paths;
    }
  }

  /** `_get_all_operations`, with its loop over the paths and its loop over the methods. */
  method GetAllOperations(spec: Json, methods: seq<string>) returns (r: Result<seq<string>>)
    ensures r == AllOperations(spec, methods)
  {
    var paths :- Get(spec, "paths", Obj([]));
    if !paths.Obj? {
      return Raised(AttributeError);
    }
    var fields := paths.fields;
    var operations: seq<string> := [];
    var i := 0;
    while i < |fields|
      invariant 0 <= i <= |fields|
      invariant OperationsOfPaths(fields[..i], methods) == Ok(operations)
    {
      var path := fields[i].0;
      var pathItem := fields[i].1;
      ghost var before := operations;
      var j := 0;
      while j < |methods|
        invariant 0 <= j <= |methods|
        invariant MethodsOf(path, pathItem, methods[..j]).Ok?
        invariant operations == before + MethodsOf(path, pathItem, methods[..j]).value
      {
        var verb := methods[j];
        assert methods[..j + 1][..j] == methods[..j];
        var found := StrIn(verb, pathItem);
        if found.Raised? {
          MethodsOfRaisedEarly(path, pathItem, methods, j + 1);
          assert fields[..i + 1][..i] == fields[..i];
          OperationsRaisedEarly(fields, methods, i + 1);
          return Raised(found.error);
        }
        if found.value {
          operations := operations + [FormatOperation(verb, path)];
        }
        j := j + 1;
      }
      assert methods[..j] == methods;
      assert fields[..i + 1][..i] == fields[..i];
      i := i + 1;
    }
    assert fields[..|fields|] == fields;
    r := Ok(operations);
  }

  /** The operation named by a method when `in` finds it in the path item. */
  function OfferedOperation(path: string, pathItem: Json, verb: string): Option<string> {
    if Offers(pathItem, verb) then Some(FormatOperation(verb, path)) else None
  }

  /** The operations of one path item, in the order of `methods`. */
  function OfferedOperations(path: string, pathItem: Json, methods: seq<string>): seq<string> {
    FilterMap(methods, verb => OfferedOperation(path, pathItem, verb))
  }

  /** For a container path item, `_get_all_operations` lists, in method order,
      exactly the methods `in` finds, each named with the path. */
  lemma {:induction false} MethodsOfOffered(path: string, pathItem: Json, methods: seq<string>)
    requires Container(pathItem)
    ensures MethodsOf(path, pathItem, methods) == Ok(OfferedOperations(path, pathItem, methods))
    decreases |methods|
  {
    if methods != [] {
      var init := methods[..|methods| - 1];
      MethodsOfOffered(path, pathItem, init);
      var before := OfferedOperations(path, pathItem, init);
      assert before + [] == before;
    }
  }

  /** An operation is listed for a path item exactly when one of the methods,
      found by `in`, names it. */
  lemma OfferedMember(path: string, pathItem: Json, methods: seq<string>, op: string)
    ensures op in OfferedOperations(path, pathItem, methods) <==>
      exists k :: 0 <= k < |methods| && Offers(pathItem, methods[k]) && op == FormatOperation(methods[k], path)
  {
    FilterMapMember(methods, verb => OfferedOperation(path, pathItem, verb), op);
  }

  /** The operations of a dict of paths: each path's operations, path by path. */
  function AllOffered(paths: seq<(string, Json)>, methods: seq<string>): seq<string>
    decreases |paths|
  {
    if paths == [] then []
    else AllOffered(paths[..|paths| - 1], methods) + OfferedOperations(paths[|paths| - 1].0, paths[|paths| - 1].1, methods)
  }

  /** `_get_all_operations` over a dict of paths succeeds exactly when every path
      item is a container, and then lists each path's operations, path by path. */
  lemma {:induction false} OperationsOfPathsOffered(paths: seq<(string, Json)>, methods: seq<string>)
    requires methods != []
    ensures OperationsOfPaths(paths, methods).Ok? <==> forall i :: 0 <= i < |paths| ==> Container(paths[i].1)
    ensures OperationsOfPaths(paths, methods).Ok? ==> OperationsOfPaths(paths, methods).value == AllOffered(paths, methods)
    decreases |paths|
  {
    if paths != [] {
      var init := paths[..|paths| - 1];
      var last := paths[|paths| - 1];
      OperationsOfPathsOffered(init, methods);
      if Container(last.1) {
        MethodsOfOffered(last.0, last.1, methods);
      }
      if forall i :: 0 <= i < |paths| ==> Container(paths[i].1) {
        assert forall i :: 0 <= i < |init| ==> init[i] == paths[i];
      }
    }
  }

  /** An operation is listed for a dict of paths exactly when it is listed for
      one of its path items. */
  lemma {:induction false} AllOfferedMember(paths: seq<(string, Json)>, methods: seq<string>, op: string)
    ensures op in AllOffered(paths, methods) <==>
      exists i :: 0 <= i < |paths| && op in OfferedOperations(paths[i].0, paths[i].1, methods)
    decreases |paths|
  {
    if paths != [] {
      var init := paths[..|paths| - 1];
      AllOfferedMember(init, methods, op);
      if op in AllOffered(init, methods) {
        var i :| 0 <= i < |init| && op in OfferedOperations(init[i].0, init[i].1, methods);
        assert init[i] == paths[i];
      }
      if exists i :: 0 <= i < |paths| && op in OfferedOperations(paths[i].0, paths[i].1, methods) {
        var i :| 0 <= i < |paths| && op in OfferedOperations(paths[i].0, paths[i].1, methods);
        if i < |init| {
          assert init[i] == paths[i];
        }
      }
    }
  }

  /** With a dict of paths whose items are all containers, `_get_all_operations`
      lists exactly `METHOD path` for each path and each method of the list that
      `in` finds in that path's item. */
  lemma AllOperationsListed(spec: Json, methods: seq<string>, op: string)
    requires methods != []
    requires spec.Obj? && "paths" in KeysOf(spec.fields)
    requires Lookup(spec.fields, "paths").value.Obj?
    requires forall i :: 0 <= i < |Lookup(spec.fields, "paths").value.fields| ==>
      Container(Lookup(spec.fields, "paths").value.fields[i].1)
    ensures AllOperations(spec, methods).Ok?
    ensures op in AllOperations(spec, methods).value <==>
      exists i, k :: 0 <= i < |Lookup(spec.fields, "paths").value.fields| && 0 <= k < |methods|
        && Offers(Lookup(spec.fields, "paths").value.fields[i].1, methods[k])
        && op == FormatOperation(methods[k], Lookup(spec.fields, "paths").value.fields[i].0)
  {
    var paths := Lookup(spec.fields, "paths").value.fields;
    OperationsOfPathsOffered(paths, methods);
    AllOfferedMember(paths, methods, op);
    forall i | 0 <= i < |paths|
      ensures op in OfferedOperations(paths[i].0, paths[i].1, methods) <==>
        exists k :: 0 <= k < |methods| && Offers(paths[i].1, methods[k]) && op == FormatOperation(methods[k], paths[i].0)
    {
      OfferedMember(paths[i].0, paths[i].1, methods, op);
    }
  }
}
