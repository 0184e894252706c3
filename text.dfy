/** Character classes and string helpers shared by the lexer, the tag
    grammars and the form validators. Strings are Python 2 byte strings,
    modelled as sequences of characters one per byte. */
module Text {

  /** The characters `\s` matches in a Python 2 `str` regex, which are also
      the ones `str.strip()` removes: space, \t, \n, \r, \f and \v. */
  predicate IsSpace(c: char) {
    c == ' ' || c == '\t' || c == '\n' || c == '\r' || c == '\U{000C}' || c == '\U{000B}'
  }

  predicate IsAsciiLetter(c: char) {
    ('a' <= c <= 'z') || ('A' <= c <= 'Z')
  }

  predicate IsAsciiDigit(c: char) {
    '0' <= c <= '9'
  }

  /** Number of leading whitespace characters of `s`. */
  function LeadingSpace(s: string): (n: nat)
    ensures n <= |s|
    ensures forall k :: 0 <= k < n ==> IsSpace(s[k])
    ensures n < |s| ==> !IsSpace(s[n])
  {
    if s == [] || !IsSpace(s[0]) then 0 else 1 + LeadingSpace(s[1..])
  }

  /** Number of trailing whitespace characters of `s`. */
  function TrailingSpace(s: string): (n: nat)
    ensures n <= |s|
    ensures forall k :: |s| - n <= k < |s| ==> IsSpace(s[k])
    ensures n < |s| ==> !IsSpace(s[|s| - n - 1])
  {
    if s == [] || !IsSpace(s[|s| - 1]) then 0 else 1 + TrailingSpace(s[..|s| - 1])
  }

  /** `s` has no whitespace at either end. */
  predicate Stripped(s: string) {
    s == [] || (!IsSpace(s[0]) && !IsSpace(s[|s| - 1]))
  }

  /** Python's `s.strip()` for a byte string: the whitespace at both ends removed. */
  function Strip(s: string): (r: string)
    ensures Stripped(r)
    ensures |r| <= |s|
  {
    var t := s[LeadingSpace(s)..];
    t[..|t| - TrailingSpace(t)]
  }

  /** Stripping removes exactly the whitespace at both ends: what is left
      is a slice of `s` with only whitespace around it, and it is empty
      exactly when `s` is all whitespace. */
  lemma StripSlice(s: string)
    ensures LeadingSpace(s) + |Strip(s)| <= |s|
    ensures Strip(s) == s[LeadingSpace(s)..LeadingSpace(s) + |Strip(s)|]
    ensures forall k :: LeadingSpace(s) + |Strip(s)| <= k < |s| ==> IsSpace(s[k])
    ensures Strip(s) == [] <==> forall k :: 0 <= k < |s| ==> IsSpace(s[k])
  {
    var i := LeadingSpace(s);
    var t := s[i..];
    var j := TrailingSpace(t);
    assert s[i..i + |Strip(s)|] == Strip(s);
  }

  /** A stripped string is its own strip. */
  lemma StripStripped(s: string)
    requires Stripped(s)
    ensures Strip(s) == s
  {
  }

  /** `s.count("\n")`. */
  function Newlines(s: string): nat {
    if s == [] then 0 else (if s[0] == '\n' then 1 else 0) + Newlines(s[1..])
  }

  lemma {:induction false} NewlinesAppend(a: string, b: string)
    ensures Newlines(a + b) == Newlines(a) + Newlines(b)
  {
    if a != [] {
      assert (a + b)[1..] == a[1..] + b;
      NewlinesAppend(a[1..], b);
    } else {
      assert a + b == b;
    }
  }

  /** `"".join(parts)`. */
  function Join(parts: seq<string>): string {
    if parts == [] then "" else parts[0] + Join(parts[1..])
  }

  lemma {:induction false} JoinAppend(a: seq<string>, b: seq<string>)
    ensures Join(a + b) == Join(a) + Join(b)
  {
    if a != [] {
      assert (a + b)[1..] == a[1..] + b;
      JoinAppend(a[1..], b);
    } else {
      assert a + b == b;
    }
  }

  /** `s.split(c)`: the pieces between the occurrences of `c`. */
  function SplitAt(s: string, c: char): (r: seq<string>)
    ensures |r| >= 1 && (c in s ==> |r| >= 2)
    ensures forall k :: 0 <= k < |r| ==> c !in r[k]
    decreases |s|
  {
    if c !in s then [s]
    else
      var k := FirstOf(s, c);
      [s[..k]] + SplitAt(s[k + 1..], c)
  }

  /** The position of the first `c` in `s`. */
  function FirstOf(s: string, c: char): (k: nat)
    requires c in s
    ensures k < |s| && s[k] == c && c !in s[..k]
  {
    if s[0] == c then 0
    else
      assert s == [s[0]] + s[1..];
      var k := FirstOf(s[1..], c);
      assert s[..k + 1] == [s[0]] + s[1..][..k];
      k + 1
  }

  /** `c.join(parts)`. */
  function JoinWith(parts: seq<string>, c: char): string
    requires |parts| >= 1
  {
    if |parts| == 1 then parts[0] else parts[0] + [c] + JoinWith(parts[1..], c)
  }

  /** Splitting loses nothing: joining the pieces back with the separator
      gives the text. */
  lemma {:induction false} SplitJoin(s: string, c: char)
    ensures JoinWith(SplitAt(s, c), c) == s
    decreases |s|
  {
    if c in s {
      var k := FirstOf(s, c);
      SplitJoin(s[k + 1..], c);
      var r := SplitAt(s, c);
      assert r == [s[..k]] + SplitAt(s[k + 1..], c);
      assert r[0] == s[..k] && r[1..] == SplitAt(s[k + 1..], c);
      assert JoinWith(r, c) == s[..k] + [c] + JoinWith(SplitAt(s[k + 1..], c), c);
      assert s == s[..k] + [c] + s[k + 1..];
    } else {
      assert SplitAt(s, c) == [s];
    }
  }

  /** A text with n separators splits into n + 1 pieces. */
  lemma {:induction false} SplitCount(s: string, c: char)
    ensures |SplitAt(s, c)| == Count(s, c) + 1
    decreases |s|
  {
    if c in s {
      var k := FirstOf(s, c);
      SplitCount(s[k + 1..], c);
      assert s == s[..k] + ([c] + s[k + 1..]);
      CountAppend(s[..k], [c] + s[k + 1..], c);
      CountAppend([c], s[k + 1..], c);
      CountNone(s[..k], c);
      assert Count([c], c) == 1 by {
        assert [c][1..] == [];
      }
      assert |SplitAt(s, c)| == 1 + |SplitAt(s[k + 1..], c)|;
    } else {
      CountNone(s, c);
    }
  }

  /** `s.count(c)`. */
  function Count(s: string, c: char): nat {
    if s == [] then 0 else (if s[0] == c then 1 else 0) + Count(s[1..], c)
  }

  lemma {:induction false} CountAppend(a: string, b: string, c: char)
    ensures Count(a + b, c) == Count(a, c) + Count(b, c)
  {
    if a == [] {
      assert a + b == b;
    } else {
      assert (a + b)[1..] == a[1..] + b;
      CountAppend(a[1..], b, c);
    }
  }

  lemma {:induction false} CountNone(a: string, c: char)
    requires c !in a
    ensures Count(a, c) == 0
  {
    if a != [] {
      CountNone(a[1..], c);
    }
  }

  /** A character that is neither the separator nor in any piece is not in
      the joined text. */
  lemma {:induction false} JoinWithOmits(parts: seq<string>, c: char, x: char)
    requires |parts| >= 1 && x != c
    requires forall k :: 0 <= k < |parts| ==> x !in parts[k]
    ensures x !in JoinWith(parts, c)
  {
    if |parts| > 1 {
      JoinWithOmits(parts[1..], c, x);
    }
  }

  /** The last piece ends the joined text, right after a separator. */
  lemma {:induction false} JoinWithLast(parts: seq<string>, c: char)
    requires |parts| >= 2
    ensures JoinWith(parts, c) == JoinWith(parts[..|parts| - 1], c) + [c] + parts[|parts| - 1]
  {
    if |parts| > 2 {
      JoinWithLast(parts[1..], c);
      assert parts[1..][..|parts| - 2] == parts[..|parts| - 1][1..];
    } else {
      assert parts[..1] == [parts[0]];
    }
  }
}
