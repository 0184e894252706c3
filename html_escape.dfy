/** `escape_html` of src/typhoon/template.py, which is `cgi.escape(value,
    quote=True)`: four `str.replace` passes, `&` first, then `<`, `>` and
    the double quote. */
module HtmlEscape {

  /** `s.replace(c, rep)` for a one-character pattern. */
  function ReplaceChar(s: string, c: char, rep: string): string {
    if s == [] then [] else (if s[0] == c then rep else [s[0]]) + ReplaceChar(s[1..], c, rep)
  }

  /** `cgi.escape(value, quote=True)`, pass by pass. */
  function EscapeHtml(s: string): string {
    ReplaceChar(ReplaceChar(ReplaceChar(ReplaceChar(s, '&', "&amp;"), '<', "&lt;"), '>', "&gt;"), '"', "&quot;")
  }

  /** The entity of one character. */
  function EscapeChar(c: char): string {
    if c == '&' then "&amp;"
    else if c == '<' then "&lt;"
    else if c == '>' then "&gt;"
    else if c == '"' then "&quot;"
    else [c]
  }

  /** Escaping character by character: the reference the passes are
      measured against. */
  function EscapeChars(s: string): string {
    if s == [] then [] else EscapeChar(s[0]) + EscapeChars(s[1..])
  }

  /** Decoding of the four entities; any other character stands for
      itself. */
  function Unescape(t: string): string
    decreases |t|
  {
    if t == [] then []
    else if |t| >= 5 && t[..5] == "&amp;" then "&" + Unescape(t[5..])
    else if |t| >= 4 && t[..4] == "&lt;" then "<" + Unescape(t[4..])
    else if |t| >= 4 && t[..4] == "&gt;" then ">" + Unescape(t[4..])
    else if |t| >= 6 && t[..6] == "&quot;" then "\"" + Unescape(t[6..])
    else [t[0]] + Unescape(t[1..])
  }

  predicate Special(c: char) {
    c == '&' || c == '<' || c == '>' || c == '"'
  }

  lemma {:induction false} ReplaceAppend(a: string, b: string, c: char, rep: string)
    ensures ReplaceChar(a + b, c, rep) == ReplaceChar(a, c, rep) + ReplaceChar(b, c, rep)
  {
    if a == [] {
      assert a + b == b;
    } else {
      assert (a + b)[1..] == a[1..] + b;
      ReplaceAppend(a[1..], b, c, rep);
    }
  }

  lemma ReplaceAbsent(s: string, c: char, rep: string)
    requires c !in s
    ensures ReplaceChar(s, c, rep) == s
  {
  }

  lemma EscapeHtmlAppend(a: string, b: string)
    ensures EscapeHtml(a + b) == EscapeHtml(a) + EscapeHtml(b)
  {
    var a1, b1 := ReplaceChar(a, '&', "&amp;"), ReplaceChar(b, '&', "&amp;");
    ReplaceAppend(a, b, '&', "&amp;");
    var a2, b2 := ReplaceChar(a1, '<', "&lt;"), ReplaceChar(b1, '<', "&lt;");
    ReplaceAppend(a1, b1, '<', "&lt;");
    var a3, b3 := ReplaceChar(a2, '>', "&gt;"), ReplaceChar(b2, '>', "&gt;");
    ReplaceAppend(a2, b2, '>', "&gt;");
    ReplaceAppend(a3, b3, '"', "&quot;");
  }

  lemma ReplaceOne(c: char, d: char, rep: string)
    ensures ReplaceChar([c], d, rep) == if c == d then rep else [c]
  {
    assert [c][1..] == [];
  }

  lemma EscapeHtmlChar(c: char)
    ensures EscapeHtml([c]) == EscapeChar(c)
  {
    ReplaceOne(c, '&', "&amp;");
    if c == '&' {
      EscapeAmp(c, ReplaceChar([c], '&', "&amp;"));
    } else {
      ReplaceOne(c, '<', "&lt;");
      if c == '<' {
        EscapeLt(c, ReplaceChar([c], '<', "&lt;"));
      } else {
        ReplaceOne(c, '>', "&gt;");
        ReplaceOne(c, '"', "&quot;");
      }
    }
  }

  lemma EscapeAmp(c: char, s1: string)
    requires c == '&' && s1 == ReplaceChar([c], '&', "&amp;") && s1 == "&amp;"
    ensures EscapeHtml([c]) == EscapeChar(c)
  {
    LaterPassesKeep(s1);
  }

  /** The passes after the first leave a text without `<`, `>` and `"`
      as it is. */
  lemma LaterPassesKeep(e: string)
    requires '<' !in e && '>' !in e && '"' !in e
    ensures ReplaceChar(ReplaceChar(ReplaceChar(e, '<', "&lt;"), '>', "&gt;"), '"', "&quot;") == e
  {
    ReplaceAbsent(e, '<', "&lt;");
    ReplaceAbsent(e, '>', "&gt;");
    ReplaceAbsent(e, '"', "&quot;");
  }

  lemma EscapeLt(c: char, s2: string)
    requires c == '<' && s2 == ReplaceChar([c], '<', "&lt;") && s2 == "&lt;"
    ensures EscapeHtml([c]) == EscapeChar(c)
  {
    ReplaceOne(c, '&', "&amp;");
    assert ReplaceChar(s2, '>', "&gt;") == s2 by { ReplaceAbsent(s2, '>', "&gt;"); }
    assert ReplaceChar(s2, '"', "&quot;") == s2 by { ReplaceAbsent(s2, '"', "&quot;"); }
  }

  /** The four passes escape each character on its own: no pass touches
      what an earlier pass produced, because `&` goes first. */
  lemma {:induction false} EscapeHtmlIsPerChar(s: string)
    ensures EscapeHtml(s) == EscapeChars(s)
  {
    if s != [] {
      assert s == [s[0]] + s[1..];
      EscapeHtmlAppend([s[0]], s[1..]);
      EscapeHtmlChar(s[0]);
      EscapeHtmlIsPerChar(s[1..]);
    }
  }

  lemma UnescapeChar(c: char, rest: string)
    ensures Unescape(EscapeChar(c) + rest) == [c] + Unescape(rest)
  {
    if c == '&' {
      UnescapeEntity("&amp;", '&', rest);
    } else if c == '<' {
      UnescapeEntity("&lt;", '<', rest);
    } else if c == '>' {
      UnescapeEntity("&gt;", '>', rest);
    } else if c == '"' {
      UnescapeEntity("&quot;", '"', rest);
    } else {
      var e := [c] + rest;
      assert e[0] == c && e[1..] == rest;
      assert !(|e| >= 5 && e[..5] == "&amp;") && !(|e| >= 4 && e[..4] == "&lt;") by { assert e[0] != '&'; }
      assert !(|e| >= 4 && e[..4] == "&gt;") && !(|e| >= 6 && e[..6] == "&quot;") by { assert e[0] != '&'; }
    }
  }

  lemma UnescapeEntity(ent: string, c: char, rest: string)
    requires (ent, c) in {("&amp;", '&'), ("&lt;", '<'), ("&gt;", '>'), ("&quot;", '"')}
    ensures Unescape(ent + rest) == [c] + Unescape(rest)
  {
    var e := ent + rest;
    assert e[..|ent|] == ent && e[|ent|..] == rest;
    if c != '&' {
      assert !(|e| >= 5 && e[..5] == "&amp;") by { assert e[1] == ent[1]; }
    }
    if c == '>' || c == '"' {
      assert !(|e| >= 4 && e[..4] == "&lt;") by { assert e[1] == ent[1]; }
    }
    if c == '"' {
      assert !(|e| >= 4 && e[..4] == "&gt;") by { assert e[1] == ent[1]; }
    }
  }

  /** Escaping loses nothing: decoding the entities gives the text back. */
  lemma {:induction false} UnescapeEscapeHtml(s: string)
    ensures Unescape(EscapeHtml(s)) == s
  {
    EscapeHtmlIsPerChar(s);
    UnescapeEscapeChars(s);
  }

  lemma {:induction false} UnescapeEscapeChars(s: string)
    ensures Unescape(EscapeChars(s)) == s
  {
    if s != [] {
      UnescapeChar(s[0], EscapeChars(s[1..]));
      UnescapeEscapeChars(s[1..]);
      assert s == [s[0]] + s[1..];
    }
  }

  /** The escaped text contains no `<`, `>` or double quote. */
  lemma {:induction false} EscapeHtmlIsSafe(s: string)
    ensures '<' !in EscapeHtml(s) && '>' !in EscapeHtml(s) && '"' !in EscapeHtml(s)
  {
    EscapeHtmlIsPerChar(s);
    EscapeCharsSafe(s);
  }

  lemma {:induction false} EscapeCharsSafe(s: string)
    ensures '<' !in EscapeChars(s) && '>' !in EscapeChars(s) && '"' !in EscapeChars(s)
  {
    if s != [] {
      EscapeCharsSafe(s[1..]);
    }
  }

  /** A text without the four special characters is left as it is. */
  lemma {:induction false} EscapeHtmlPlain(s: string)
    requires forall k :: 0 <= k < |s| ==> !Special(s[k])
    ensures EscapeHtml(s) == s
  {
    EscapeHtmlIsPerChar(s);
    EscapeCharsPlain(s);
  }

  lemma {:induction false} EscapeCharsPlain(s: string)
    requires forall k :: 0 <= k < |s| ==> !Special(s[k])
    ensures EscapeChars(s) == s
  {
    if s != [] {
      EscapeCharsPlain(s[1..]);
      assert s == [s[0]] + s[1..];
    }
  }
}
