/**
 * String helpers shared by the validators and the link builders: the
 * ECMAScript `trim`, the split of a URL path into its `/`-separated
 * segments, and how a possibly missing username prints inside a link.
 */
module Text {
  import opened Wrappers

  /** ECMAScript WhiteSpace and LineTerminator code points, the set `String.prototype.trim` strips. */
  const Whitespace: set<char> := {
    '\t', '\n', '\U{000B}', '\U{000C}', '\r', ' ', '\U{00A0}', '\U{1680}',
    '\U{2000}', '\U{2001}', '\U{2002}', '\U{2003}', '\U{2004}', '\U{2005}',
    '\U{2006}', '\U{2007}', '\U{2008}', '\U{2009}', '\U{200A}',
    '\U{2028}', '\U{2029}', '\U{202F}', '\U{205F}', '\U{3000}', '\U{FEFF}'
  }

  predicate IsWhitespace(c: char) {
    c in Whitespace
  }

  predicate AllWhitespace(s: string) {
    forall i :: 0 <= i < |s| ==> IsWhitespace(s[i])
  }

  /** Neither end of `s` is whitespace (vacuously true of the empty string). */
  predicate NotPadded(s: string) {
    s == [] || (!IsWhitespace(s[0]) && !IsWhitespace(s[|s| - 1]))
  }

  /** The number of whitespace characters `s` starts with. */
  function LeadingWhitespace(s: string): (n: nat)
    ensures n <= |s|
    ensures forall i :: 0 <= i < n ==> IsWhitespace(s[i])
    ensures n < |s| ==> !IsWhitespace(s[n])
  {
    if s != [] && IsWhitespace(s[0]) then 1 + LeadingWhitespace(s[1..]) else 0
  }

  /** The number of whitespace characters `s` ends with. */
  function TrailingWhitespace(s: string): (n: nat)
    ensures n <= |s|
    ensures forall i :: |s| - n <= i < |s| ==> IsWhitespace(s[i])
    ensures n < |s| ==> !IsWhitespace(s[|s| - n - 1])
  {
    if s != [] && IsWhitespace(s[|s| - 1]) then 1 + TrailingWhitespace(s[..|s| - 1]) else 0
  }

  function TrimStart(s: string): string {
    s[LeadingWhitespace(s)..]
  }

  function TrimEnd(s: string): string {
    s[..|s| - TrailingWhitespace(s)]
  }

  /** `String.prototype.trim`: both ends stripped, in that order. */
  function Trim(s: string): (r: string)
    ensures NotPadded(r)
    ensures |r| <= |s|
  {
    TrimEnd(TrimStart(s))
  }

  /** The trimmed string is `s` with only whitespace cut from either end. */
  lemma TrimDecomposes(s: string) returns (prefix: string, suffix: string)
    ensures s == prefix + Trim(s) + suffix
    ensures AllWhitespace(prefix) && AllWhitespace(suffix)
  {
    var t := TrimStart(s);
    var r := TrimEnd(t);
    prefix := s[..LeadingWhitespace(s)];
    suffix := t[|t| - TrailingWhitespace(t)..];
    assert s == prefix + t;
    assert t == r + suffix;
  }

  lemma {:induction false} LeadingOfWhitespacePrefix(p: string, s: string)
    requires AllWhitespace(p)
    requires s == [] || !IsWhitespace(s[0])
    ensures LeadingWhitespace(p + s) == |p|
    decreases |p|
  {
    if p != [] {
      assert (p + s)[1..] == p[1..] + s;
      LeadingOfWhitespacePrefix(p[1..], s);
    } else {
      assert p + s == s;
    }
  }

  lemma {:induction false} TrailingOfWhitespaceSuffix(s: string, q: string)
    requires AllWhitespace(q)
    requires s == [] || !IsWhitespace(s[|s| - 1])
    ensures TrailingWhitespace(s + q) == |q|
    decreases |q|
  {
    if q != [] {
      assert (s + q)[..|s + q| - 1] == s + q[..|q| - 1];
      TrailingOfWhitespaceSuffix(s, q[..|q| - 1]);
    } else {
      assert s + q == s;
    }
  }

  /** Trim is characterised by its result: whitespace around an unpadded core trims to that core. */
  lemma TrimOfPadded(p: string, s: string, q: string)
    requires AllWhitespace(p) && AllWhitespace(q) && NotPadded(s)
    ensures Trim(p + s + q) == s
  {
    var all := p + s + q;
    assert all == p + (s + q);
    if s == [] {
      assert all == p + q;
      assert AllWhitespace(p + q);
      LeadingOfWhitespacePrefix(p + q, []);
      assert p + q + [] == p + q;
    } else {
      assert (s + q)[0] == s[0];
      LeadingOfWhitespacePrefix(p, s + q);
      assert TrimStart(all) == s + q;
      TrailingOfWhitespaceSuffix(s, q);
    }
  }

  /** An unpadded string is its own trim. */
  lemma TrimUnpadded(s: string)
    requires NotPadded(s)
    ensures Trim(s) == s
  {
    TrimOfPadded([], s, []);
    assert [] + s + [] == s;
  }

  /** Trimming twice is trimming once. */
  lemma TrimIdempotent(s: string)
    ensures Trim(Trim(s)) == Trim(s)
  {
    TrimUnpadded(Trim(s));
  }

  /** A string trims to empty exactly when it is all whitespace. */
  lemma TrimEmptyIffWhitespace(s: string)
    ensures Trim(s) == [] <==> AllWhitespace(s)
  {
    var p, q := TrimDecomposes(s);
    if AllWhitespace(s) {
      TrimOfPadded(s, [], []);
      assert s + [] + [] == s;
    }
  }

  /** Glues segments with `sep` between each neighbouring pair. */
  function Join(parts: seq<string>, sep: char): string {
    if |parts| == 0 then ""
    else if |parts| == 1 then parts[0]
    else parts[0] + [sep] + Join(parts[1..], sep)
  }

  lemma JoinCons(a: string, rest: seq<string>, sep: char)
    requires |rest| >= 1
    ensures Join([a] + rest, sep) == a + [sep] + Join(rest, sep)
  {
    assert ([a] + rest)[1..] == rest;
  }

  /** Cuts `s` at every `sep`; the result always has one more segment than `s` has separators. */
  function Split(s: string, sep: char): (r: seq<string>)
    ensures |r| >= 1
    ensures forall k :: 0 <= k < |r| ==> sep !in r[k]
  {
    if s == [] then [""]
    else
      var rest := Split(s[1..], sep);
      if s[0] == sep then [""] + rest
      else [[s[0]] + rest[0]] + rest[1..]
  }

  lemma {:induction false} SplitNoSeparator(a: string, sep: char)
    requires sep !in a
    ensures Split(a, sep) == [a]
  {
    if a != [] {
      SplitNoSeparator(a[1..], sep);
      assert [a[0]] + a[1..] == a;
    }
  }

  lemma {:induction false} SplitAfterSegment(a: string, sep: char, t: string)
    requires sep !in a
    ensures Split(a + [sep] + t, sep) == [a] + Split(t, sep)
  {
    if a == [] {
      assert a + [sep] + t == [sep] + t;
      assert ([sep] + t)[1..] == t;
    } else {
      var s := a + [sep] + t;
      assert s[1..] == a[1..] + [sep] + t;
      SplitAfterSegment(a[1..], sep, t);
      assert [a[0]] + a[1..] == a;
    }
  }

  /** Splitting a join of separator-free segments gives the segments back. */
  lemma {:induction false} SplitJoin(parts: seq<string>, sep: char)
    requires |parts| >= 1
    requires forall k :: 0 <= k < |parts| ==> sep !in parts[k]
    ensures Split(Join(parts, sep), sep) == parts
  {
    if |parts| == 1 {
      SplitNoSeparator(parts[0], sep);
    } else {
      SplitJoin(parts[1..], sep);
      SplitAfterSegment(parts[0], sep, Join(parts[1..], sep));
      assert [parts[0]] + parts[1..] == parts;
    }
  }

  /**
   * A username as a template literal prints it: a user without a username
   * (`null`) is printed as the four letters "null".
   */
  function LinkName(username: Option<string>): (r: string)
    ensures username.Some? ==> r == username.value
    ensures username.None? ==> r == "null"
  {
    username.GetOr("null")
  }
}
