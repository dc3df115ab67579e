/** The Python string operations the detector relies on: substring search
    (`pat in s`), `str.startswith`, `str.split` on a literal separator,
    `str.strip(chars)` and `str.upper()`. */
module PyStr {
  import opened Results

  /** `pat` occurs in `s` starting at index `i`. */
  predicate OccursAt(s: string, pat: string, i: int) {
    0 <= i && i + |pat| <= |s| && s[i..i + |pat|] == pat
  }

  /** Occurrences in `s` at index j >= 1 are the occurrences in `s[1..]`, shifted by one. */
  lemma OccursShift(s: string, pat: string)
    requires s != []
    ensures forall j :: 1 <= j ==> (OccursAt(s, pat, j) <==> OccursAt(s[1..], pat, j - 1))
  {
    forall j | 1 <= j
      ensures OccursAt(s, pat, j) <==> OccursAt(s[1..], pat, j - 1)
    {
      if j + |pat| <= |s| {
        assert s[1..][j - 1..j - 1 + |pat|] == s[j..j + |pat|];
      }
    }
  }

  /** Python's `s.find(pat)`: the first index at which `pat` occurs, if any. */
  function Find(s: string, pat: string): (r: Option<nat>)
    ensures r.Some? ==> OccursAt(s, pat, r.value)
    ensures r.Some? ==> forall j :: 0 <= j < r.value ==> !OccursAt(s, pat, j)
    ensures r.None? ==> forall j :: !OccursAt(s, pat, j)
    decreases |s|
  {
    if |s| < |pat| then None
    else if s[..|pat|] == pat then Some(0)
    else
      OccursShift(s, pat);
      match Find(s[1..], pat)
      case None => None
      case Some(k) => Some(k + 1)
  }

  /** Python's `pat in s`. */
  function Contains(s: string, pat: string): (b: bool)
    ensures b <==> exists i :: OccursAt(s, pat, i)
  {
    Find(s, pat).Some?
  }

  /** Python's `s.startswith(prefix)`. */
  function StartsWith(s: string, prefix: string): (b: bool)
    ensures b <==> OccursAt(s, prefix, 0)
  {
    |prefix| <= |s| && s[..|prefix|] == prefix
  }

  /** Python's `s.split(sep)` for a non-empty literal `sep`: the pieces between
      the left-to-right, non-overlapping occurrences of `sep`. */
  function Split(s: string, sep: string): (parts: seq<string>)
    requires sep != ""
    ensures |parts| >= 1
    decreases |s|
  {
    match Find(s, sep)
    case None => [s]
    case Some(i) => [s[..i]] + Split(s[i + |sep|..], sep)
  }

  /** Python's `sep.join(parts)`, the inverse of `Split`. */
  function Join(parts: seq<string>, sep: string): string
    requires |parts| >= 1
  {
    if |parts| == 1 then parts[0] else parts[0] + sep + Join(parts[1..], sep)
  }

  /** Joining the pieces of a split with the same separator gives back the string. */
  lemma {:induction false} SplitJoin(s: string, sep: string)
    requires sep != ""
    ensures Join(Split(s, sep), sep) == s
    decreases |s|
  {
    match Find(s, sep)
    case None =>
    case Some(i) =>
      var rest := s[i + |sep|..];
      var pieces := Split(rest, sep);
      SplitJoin(rest, sep);
      assert Split(s, sep) == [s[..i]] + pieces;
      assert ([s[..i]] + pieces)[1..] == pieces;
      assert Join(Split(s, sep), sep) == s[..i] + sep + Join(pieces, sep);
      assert s == s[..i] + sep + rest by {
        assert s[i..i + |sep|] == sep;
        assert s == s[..i] + s[i..i + |sep|] + s[i + |sep|..];
      }
  }

  /** An occurrence inside a prefix of `s` is an occurrence in `s`. */
  lemma OccursInPrefix(s: string, n: nat, pat: string, j: int)
    requires n <= |s| && OccursAt(s[..n], pat, j)
    ensures OccursAt(s, pat, j)
  {
    assert s[..n][j..j + |pat|] == s[j..j + |pat|];
  }

  /** An occurrence that ends within the first `n` characters is an occurrence in `s[..n]`. */
  lemma OccursWithinPrefix(s: string, n: nat, pat: string, j: int)
    requires n <= |s| && OccursAt(s, pat, j) && j + |pat| <= n
    ensures OccursAt(s[..n], pat, j)
  {
    assert s[..n][j..j + |pat|] == s[j..j + |pat|];
  }

  /** No piece of a split contains the separator. */
  lemma {:induction false} SplitPiecesLackSeparator(s: string, sep: string)
    requires sep != ""
    ensures forall k :: 0 <= k < |Split(s, sep)| ==> !Contains(Split(s, sep)[k], sep)
    decreases |s|
  {
    match Find(s, sep)
    case None =>
    case Some(i) =>
      var rest := s[i + |sep|..];
      SplitPiecesLackSeparator(rest, sep);
      forall j | OccursAt(s[..i], sep, j)
        ensures false
      {
        OccursInPrefix(s, i, sep, j);
      }
      assert Split(s, sep) == [s[..i]] + Split(rest, sep);
  }

  /** An occurrence of `x + y` contains an occurrence of `x` and one of `y`. */
  lemma ContainsParts(s: string, x: string, y: string)
    requires Contains(s, x + y)
    ensures Contains(s, x) && Contains(s, y)
  {
    var i :| OccursAt(s, x + y, i);
    assert s[i..i + |x|] == (x + y)[..|x|] == x;
    assert OccursAt(s, x, i);
    assert s[i + |x|..i + |x| + |y|] == (x + y)[|x|..] == y;
    assert OccursAt(s, y, i + |x|);
  }

  /** A string that lacks one of the characters of `pat` cannot contain `pat`. */
  lemma MissingCharExcludes(s: string, pat: string, c: char)
    requires c in pat && c !in s
    ensures !Contains(s, pat)
  {
  }

  /** Splitting never merges: a string that contains the separator splits into
      at least two pieces. */
  lemma SplitAtOccurrence(s: string, sep: string)
    requires sep != "" && Contains(s, sep)
    ensures |Split(s, sep)| >= 2
  {
  }

  /** A string without the separator is its own only piece. */
  lemma SplitWithoutSeparator(s: string, sep: string)
    requires sep != "" && !Contains(s, sep)
    ensures Split(s, sep) == [s]
  {
  }

  /** When `a`, followed by all but the last character of `sep`, holds no
      occurrence of `sep`, the first piece of `a + sep + b` is exactly `a`. */
  lemma SplitConcat(a: string, sep: string, b: string)
    requires sep != "" && !Contains(a + sep[..|sep| - 1], sep)
    ensures Split(a + sep + b, sep) == [a] + Split(b, sep)
  {
    var s := a + sep + b;
    assert s[|a|..|a| + |sep|] == sep;
    assert OccursAt(s, sep, |a|);
    var n := |a| + |sep| - 1;
    assert s[..n] == a + sep[..|sep| - 1];
    forall j | 0 <= j < |a|
      ensures !OccursAt(s, sep, j)
    {
      if OccursAt(s, sep, j) {
        OccursWithinPrefix(s, n, sep, j);
      }
    }
    assert Find(s, sep) == Some(|a|);
    assert s[..|a|] == a;
    assert s[|a| + |sep|..] == b;
  }

  /** One occurrence of the separator splits a string in two. */
  lemma SplitOnce(a: string, b: string, sep: string)
    requires sep != "" && !Contains(a + sep[..|sep| - 1], sep) && !Contains(b, sep)
    ensures Contains(a + sep + b, sep)
    ensures Split(a + sep + b, sep) == [a, b]
  {
    assert OccursAt(a + sep + b, sep, |a|);
    SplitConcat(a, sep, b);
  }

  /** A string that starts with the separator and holds it nowhere else splits
      into the empty string and the rest. */
  lemma SplitLeading(sep: string, b: string)
    requires sep != "" && !Contains(b, sep)
    ensures Contains(sep + b, sep)
    ensures Split(sep + b, sep) == ["", b]
  {
    assert "" + sep + b == sep + b;
    assert !OccursAt("" + sep[..|sep| - 1], sep, 0);
    SplitOnce("", b, sep);
  }

  /** Two fragments free of the separator, each followed by it, come out first. */
  lemma SplitTwo(a1: string, a2: string, tail: string, sep: string)
    requires sep != ""
    requires !Contains(a1 + sep[..|sep| - 1], sep) && !Contains(a2 + sep[..|sep| - 1], sep)
    ensures Split(a1 + sep + (a2 + sep + tail), sep) == [a1, a2] + Split(tail, sep)
  {
    SplitConcat(a2, sep, tail);
    SplitConcat(a1, sep, a2 + sep + tail);
  }

  /** Three fragments free of the separator, each followed by it, come out first. */
  lemma SplitThree(a1: string, a2: string, a3: string, tail: string, sep: string)
    requires sep != ""
    requires !Contains(a1 + sep[..|sep| - 1], sep) && !Contains(a2 + sep[..|sep| - 1], sep)
    requires !Contains(a3 + sep[..|sep| - 1], sep)
    ensures Split(a1 + sep + (a2 + sep + (a3 + sep + tail)), sep) == [a1, a2, a3] + Split(tail, sep)
  {
    SplitConcat(a3, sep, tail);
    SplitConcat(a2, sep, a3 + sep + tail);
    SplitConcat(a1, sep, a2 + sep + (a3 + sep + tail));
  }

  /** Characters removed from the front by `strip`. */
  function TrimStart(s: string, chars: set<char>): (r: string)
    ensures |r| <= |s| && r == s[|s| - |r|..]
    ensures forall k :: 0 <= k < |s| - |r| ==> s[k] in chars
    ensures r != [] ==> r[0] !in chars
    decreases |s|
  {
    if s != [] && s[0] in chars then TrimStart(s[1..], chars) else s
  }

  /** Characters removed from the back by `strip`. */
  function TrimEnd(s: string, chars: set<char>): (r: string)
    ensures |r| <= |s| && r == s[..|r|]
    ensures forall k :: |r| <= k < |s| ==> s[k] in chars
    ensures r != [] ==> r[|r| - 1] !in chars
    decreases |s|
  {
    if s != [] && s[|s| - 1] in chars then TrimEnd(s[..|s| - 1], chars) else s
  }

  /** Python's `s.strip(chars)`: drops every leading and trailing character
      that belongs to `chars`. */
  function Strip(s: string, chars: set<char>): (r: string)
    ensures |r| <= |s|
    ensures r != [] ==> r[0] !in chars && r[|r| - 1] !in chars
  {
    TrimEnd(TrimStart(s, chars), chars)
  }

  /** `TrimStart` drops a leading run of `chars` up to the first character outside it. */
  lemma {:induction false} TrimStartPadded(x: string, rest: string, chars: set<char>)
    requires forall k :: 0 <= k < |x| ==> x[k] in chars
    requires rest != [] && rest[0] !in chars
    ensures TrimStart(x + rest, chars) == rest
    decreases |x|
  {
    if x != [] {
      assert (x + rest)[1..] == x[1..] + rest;
      TrimStartPadded(x[1..], rest, chars);
    }
  }

  /** `TrimEnd` drops a trailing run of `chars` back to the last character outside it. */
  lemma {:induction false} TrimEndPadded(rest: string, y: string, chars: set<char>)
    requires forall k :: 0 <= k < |y| ==> y[k] in chars
    requires rest != [] && rest[|rest| - 1] !in chars
    ensures TrimEnd(rest + y, chars) == rest
    decreases |y|
  {
    if y != [] {
      var y' := y[..|y| - 1];
      assert (rest + y)[..|rest + y| - 1] == rest + y';
      TrimEndPadded(rest, y', chars);
    } else {
      assert rest + y == rest;
    }
  }

  /** `strip` removes exactly a surrounding padding made of `chars` from a core
      that neither starts nor ends with one of them. */
  lemma StripPadding(x: string, p: string, y: string, chars: set<char>)
    requires forall k :: 0 <= k < |x| ==> x[k] in chars
    requires forall k :: 0 <= k < |y| ==> y[k] in chars
    requires p != [] && p[0] !in chars && p[|p| - 1] !in chars
    ensures Strip(x + p + y, chars) == p
  {
    assert x + p + y == x + (p + y);
    TrimStartPadded(x, p + y, chars);
    TrimEndPadded(p, y, chars);
  }

  /** Python's `c.upper()` on the ASCII letters; every other character is kept. */
  function UpperChar(c: char): char {
    if 'a' <= c <= 'z' then (c as int - 32) as char else c
  }

  /** Python's `s.upper()`, character by character. */
  function Upper(s: string): (r: string)
    ensures |r| == |s|
    ensures forall k :: 0 <= k < |s| ==> r[k] == UpperChar(s[k])
  {
    if s == [] then [] else [UpperChar(s[0])] + Upper(s[1..])
  }
}
