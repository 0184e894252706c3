/** The tag patterns of the macros (`token_regex_check` and the patterns
    handed to it: `^if\s+(.+?)$`, `^for\s+(.+?)\s+in\s+(.+?)$`,
    `^include\s+(.+?)$`, all compiled with DOTALL), the terminator
    patterns of `parse_block` (`RE_IF_BLOCK`, `RE_ENDFOR`, compiled without
    flags) and `name_setter`, in src/typhoon/template.py.

    The patterns are matched the way Python's backtracking engine does:
    a greedy `\s+` first takes every whitespace character and gives them
    back one at a time, a lazy `(.+?)` first takes one character and
    takes more one at a time, and `$` matches at the end of the text or
    just before a newline that ends it. */
module TemplateMacros {
  import opened Wrappers
  import opened Text
  import opened TemplateAst

  /** The macros of a parser, in registration order. */
  datatype Macro = IfMacro | ForMacro | IncludeMacro

  /** `DEFAULT_MACROS`. */
  const DefaultMacros: seq<Macro> := [IfMacro, ForMacro, IncludeMacro]

  /** The groups of a pattern that matched a tag. */
  datatype MacroArgs = IfArgs(expr: string) | ForArgs(name: string, iterable: string) | IncludeArgs(target: string)

  /** The terminator tags `parse_block` accepts. */
  datatype EndTag = Elif(expr: string) | Else | Endif | Endfor

  /** The length of the run of whitespace that starts at `i`. */
  function WsRun(s: string, i: nat): (n: nat)
    requires i <= |s|
    ensures i + n <= |s|
    ensures forall k :: i <= k < i + n ==> IsSpace(s[k])
    ensures i + n == |s| || !IsSpace(s[i + n])
    decreases |s| - i
  {
    if i < |s| && IsSpace(s[i]) then 1 + WsRun(s, i + 1) else 0
  }

  /** Python's `$` without MULTILINE. */
  predicate DollarAt(s: string, e: nat)
    requires e <= |s|
  {
    e == |s| || (e + 1 == |s| && s[e] == '\n')
  }

  /** A lazy `(.+?)$` whose group starts at `g`, trying the group end `e`
      and then longer ones; without DOTALL the group cannot hold a
      newline. */
  function LazyEnd(s: string, g: nat, e: nat, dotAll: bool): (r: Option<nat>)
    requires g < e
    ensures r.Some? ==> e <= r.value <= |s| && DollarAt(s, r.value)
    ensures r.Some? && !dotAll ==> forall k :: e - 1 <= k < r.value ==> s[k] != '\n'
    decreases |s| + 1 - e
  {
    if e > |s| then None
    else if !dotAll && s[e - 1] == '\n' then None
    else if DollarAt(s, e) then Some(e)
    else LazyEnd(s, g, e + 1, dotAll)
  }

  /** `\s+(.+?)$` (DOTALL) at `i`, the `\s+` holding `k` characters and
      giving them back one at a time: the span of the group. */
  function SpaceGroup(s: string, i: nat, k: nat): (r: Option<(nat, nat)>)
    requires i + k <= |s|
    ensures r.Some? ==> i < r.value.0 <= i + k && r.value.0 < r.value.1 <= |s| && DollarAt(s, r.value.1)
    decreases k
  {
    if k == 0 then None
    else
      match LazyEnd(s, i + k, i + k + 1, true)
      case Some(e) => Some((i + k, e))
      case None => SpaceGroup(s, i, k - 1)
  }

  /** `\s+(.+?)$` at `i`. */
  function Tail(s: string, i: nat): Option<(nat, nat)>
    requires i <= |s|
  {
    SpaceGroup(s, i, WsRun(s, i))
  }

  /** Does `s` begin with `w`? */
  predicate StartsWith(s: string, w: string) {
    |w| <= |s| && s[..|w|] == w
  }

  /** `^<word>\s+(.+?)$`: the group. */
  function WordThenTail(s: string, w: string): (r: Option<string>)
  {
    if StartsWith(s, w) && Tail(s, |w|).Some? then Some(s[Tail(s, |w|).value.0..Tail(s, |w|).value.1]) else None
  }

  /** The pattern of `if_macro`. */
  function IfMatch(s: string): Option<string> {
    WordThenTail(s, "if")
  }

  /** The pattern of `include_macro`. */
  function IncludeMatch(s: string): Option<string> {
    WordThenTail(s, "include")
  }

  /** `\s+in\s+(.+?)$` at `e`, the first `\s+` holding `k` characters: the
      span of the group. */
  function InAt(s: string, e: nat, k: nat): (r: Option<(nat, nat)>)
    requires e + k <= |s|
    ensures r.Some? ==> e + 2 < r.value.0 < r.value.1 <= |s|
    decreases k
  {
    if k == 0 then None
    else if e + k + 2 <= |s| && s[e + k..e + k + 2] == "in" && Tail(s, e + k + 2).Some? then Tail(s, e + k + 2)
    else InAt(s, e, k - 1)
  }

  /** The lazy name group of the `for` pattern, starting at `g` and ending
      at `e` or later: its end and the span of the iterable group. */
  function NameEnd(s: string, g: nat, e: nat): (r: Option<(nat, (nat, nat))>)
    requires g < e
    ensures r.Some? ==> e <= r.value.0 < r.value.1.0 < r.value.1.1 <= |s|
    decreases |s| + 1 - e
  {
    if e > |s| then None
    else
      match InAt(s, e, WsRun(s, e))
      case Some(t) => Some((e, t))
      case None => NameEnd(s, g, e + 1)
  }

  /** The `for` pattern after `for`, the first `\s+` holding `k`
      characters. */
  function ForFrom(s: string, k: nat): (r: Option<(string, string)>)
    requires 3 + k <= |s|
    decreases k
  {
    if k == 0 then None
    else
      match NameEnd(s, 3 + k, 4 + k)
      case Some((e, (g2, e2))) => Some((s[3 + k..e], s[g2..e2]))
      case None => ForFrom(s, k - 1)
  }

  /** The pattern of `for_macro`: the loop names and the iterable. */
  function ForMatch(s: string): Option<(string, string)> {
    if StartsWith(s, "for") then ForFrom(s, WsRun(s, 3)) else None
  }

  /** `token_regex_check`: the pattern of macro `m` applied to a block tag,
      and its groups. */
  function MacroMatch(m: Macro, content: string): (r: Option<MacroArgs>)
    ensures r.Some? ==> (m == IfMacro <==> r.value.IfArgs?) && (m == ForMacro <==> r.value.ForArgs?)
  {
    match m
    case IfMacro => if IfMatch(content).Some? then Some(IfArgs(IfMatch(content).value)) else None
    case ForMacro => if ForMatch(content).Some? then Some(ForArgs(ForMatch(content).value.0, ForMatch(content).value.1)) else None
    case IncludeMacro => if IncludeMatch(content).Some? then Some(IncludeArgs(IncludeMatch(content).value)) else None
  }

  /** `RE_IF_BLOCK`: `^(elif) (.+?)$|^(else)$|^(endif)$`, no DOTALL. */
  function IfEnd(s: string): Option<EndTag> {
    if StartsWith(s, "elif ") && LazyEnd(s, 5, 6, false).Some? then Some(Elif(s[5..LazyEnd(s, 5, 6, false).value]))
    else if StartsWith(s, "else") && DollarAt(s, 4) then Some(Else)
    else if StartsWith(s, "endif") && DollarAt(s, 5) then Some(Endif)
    else None
  }

  /** `RE_ENDFOR`: `^endfor$`. */
  function ForEnd(s: string): Option<EndTag> {
    if StartsWith(s, "endfor") && DollarAt(s, 6) then Some(Endfor) else None
  }

  // ---------------------------------------------------------------------
  // name_setter

  /** `name_setter`: a name holding a comma is a list of names, each
      stripped of whitespace; any other name is bound as it is. */
  function NameSetter(name: string): (r: Setter)
    ensures ',' in name <==> r.Unpack?
    ensures r.Single? ==> r.name == name
    ensures r.Unpack? ==> |r.names| >= 2 && forall k :: 0 <= k < |r.names| ==> Stripped(r.names[k]) && ',' !in r.names[k]
  {
    if ',' in name then
      Unpack(StripAll(SplitAt(name, ',')))
    else Single(name)
  }

  /** `[x.strip() for x in parts]`. */
  function StripAll(parts: seq<string>): (r: seq<string>)
    ensures |r| == |parts| && forall k :: 0 <= k < |r| ==> r[k] == Strip(parts[k])
  {
    if parts == [] then [] else [Strip(parts[0])] + StripAll(parts[1..])
  }

  // ---------------------------------------------------------------------
  // Properties.

  /** The patterns start with different words, so at most one macro claims
      a tag, and no terminator tag of `parse_block` is claimed by any
      macro. */
  lemma MacrosExclusive(s: string)
    ensures !(IfMatch(s).Some? && ForMatch(s).Some?)
    ensures !(IfMatch(s).Some? && IncludeMatch(s).Some?)
    ensures !(ForMatch(s).Some? && IncludeMatch(s).Some?)
    ensures IfEnd(s).Some? || ForEnd(s).Some? ==> IfMatch(s).None? && ForMatch(s).None? && IncludeMatch(s).None?
  {
    FirstLetters(s);
    EndFirstLetter(s);
  }

  /** The first letters each macro pattern demands. */
  lemma FirstLetters(s: string)
    ensures IfMatch(s).Some? ==> |s| >= 2 && s[0] == 'i' && s[1] == 'f'
    ensures ForMatch(s).Some? ==> |s| >= 3 && s[0] == 'f'
    ensures IncludeMatch(s).Some? ==> |s| >= 7 && s[0] == 'i' && s[1] == 'n'
  {
    WordLetters(s, "if");
    WordLetters(s, "include");
    if ForMatch(s).Some? {
      assert StartsWith(s, "for");
      assert s[..3][0] == s[0];
    }
  }

  lemma WordLetters(s: string, w: string)
    requires |w| >= 2
    ensures WordThenTail(s, w).Some? ==> |s| >= |w| && s[0] == w[0] && s[1] == w[1]
  {
    if WordThenTail(s, w).Some? {
      assert s[..|w|] == w;
      assert s[..|w|][0] == s[0] && s[..|w|][1] == s[1];
    }
  }

  /** Every terminator tag starts with `e`. */
  lemma EndFirstLetter(s: string)
    ensures IfEnd(s).Some? || ForEnd(s).Some? ==> |s| >= 1 && s[0] == 'e'
  {
  }

  /** The lazy group of `(.+?)$` with DOTALL, from `g` on a text that does
      not end in a newline, is the whole rest of the text. */
  lemma {:induction false} LazyEndNoNewline(s: string, g: nat, e: nat)
    requires g < e <= |s|
    requires s[|s| - 1] != '\n'
    ensures LazyEnd(s, g, e, true) == Some(|s|)
    decreases |s| - e
  {
    if e < |s| {
      LazyEndNoNewline(s, g, e + 1);
    }
  }

  /** The canonical `if` tag: the word, whitespace, and an expression that
      starts with a non-space character and does not end in a newline. */
  lemma WordThenTailCanonical(w: string, ws: string, x: string)
    requires |ws| >= 1 && forall k :: 0 <= k < |ws| ==> IsSpace(ws[k])
    requires |x| >= 1 && !IsSpace(x[0]) && x[|x| - 1] != '\n'
    ensures WordThenTail(w + ws + x, w) == Some(x)
  {
    var s := w + ws + x;
    var g := |w| + |ws|;
    assert s[..|w|] == w;
    assert s[|w|..] == ws + x;
    assert s[|s| - 1] == x[|x| - 1];
    WsRunExact(s, |w|, ws, x);
    LazyEndNoNewline(s, g, g + 1);
    assert SpaceGroup(s, |w|, |ws|) == Some((g, |s|));
    assert Tail(s, |w|) == Some((g, |s|));
    assert StartsWith(s, w);
    assert s[g..|s|] == x;
  }

  lemma {:induction false} WsRunExact(s: string, i: nat, ws: string, x: string)
    requires i + |ws| + |x| == |s| && s[i..] == ws + x
    requires forall k :: 0 <= k < |ws| ==> IsSpace(ws[k])
    requires |x| >= 1 && !IsSpace(x[0])
    ensures WsRun(s, i) == |ws|
    decreases |ws|
  {
    assert s[i] == (ws + x)[0];
    if |ws| > 0 {
      assert s[i + 1..] == ws[1..] + x;
      WsRunExact(s, i + 1, ws[1..], x);
    }
  }

  /** `{% if x %}` and `{% include x %}` hand `x` to the macro. */
  lemma IfAndIncludeCanonical(x: string)
    requires |x| >= 1 && !IsSpace(x[0]) && x[|x| - 1] != '\n'
    ensures IfMatch("if " + x) == Some(x)
    ensures IncludeMatch("include " + x) == Some(x)
  {
    assert IsSpace(" "[0]);
    WordThenTailCanonical("if", " ", x);
    assert "if" + " " + x == "if " + x;
    WordThenTailCanonical("include", " ", x);
    assert "include" + " " + x == "include " + x;
  }

  /** `{% for n in v %}` with a name without whitespace hands `n` and `v`
      to the macro. */
  lemma ForCanonical(n: string, v: string)
    requires |n| >= 1 && forall k :: 0 <= k < |n| ==> !IsSpace(n[k])
    requires |v| >= 1 && !IsSpace(v[0]) && v[|v| - 1] != '\n'
    ensures ForMatch("for " + n + " in " + v) == Some((n, v))
  {
    var s := "for " + n + " in " + v;
    var e := 4 + |n|;
    assert s[..3] == "for";
    assert s[3..] == " " + (n + " in " + v);
    assert s[4..e] == n;
    assert s[e..] == " in " + v;
    ForCanonicalSplit(s, n, v);
  }

  lemma ForCanonicalSplit(s: string, n: string, v: string)
    requires |s| == 8 + |n| + |v| && s[..3] == "for" && s[3..] == " " + (n + " in " + v)
    requires s[4..4 + |n|] == n && s[4 + |n|..] == " in " + v
    requires |n| >= 1 && forall k :: 0 <= k < |n| ==> !IsSpace(n[k])
    requires |v| >= 1 && !IsSpace(v[0]) && v[|v| - 1] != '\n'
    ensures ForMatch(s) == Some((n, v))
  {
    var e := 4 + |n|;
    assert IsSpace(' ');
    WsRunExact(s, 3, " ", n + " in " + v);
    NameSkipCanonical(s, n);
    InTailCanonical(s, e, v);
    assert ForFrom(s, 1) == Some((s[4..e], s[e + 4..|s|]));
  }

  lemma NameSkipCanonical(s: string, n: string)
    requires 4 + |n| <= |s| && s[4..4 + |n|] == n
    requires |n| >= 1 && forall k :: 0 <= k < |n| ==> !IsSpace(n[k])
    ensures NameEnd(s, 4, 5) == NameEnd(s, 4, 4 + |n|)
  {
    forall p | 5 <= p < 4 + |n| ensures InAt(s, p, WsRun(s, p)).None? {
      assert s[p] == n[p - 4];
    }
    NameEndSkips(s, 4, 5, 4 + |n|);
  }

  /** ` in v` at `e`: the iterable group is `v`. */
  lemma InTailCanonical(s: string, e: nat, v: string)
    requires e + 4 + |v| == |s| && s[e..] == " in " + v
    requires |v| >= 1 && !IsSpace(v[0]) && v[|v| - 1] != '\n'
    ensures NameEnd(s, 4, e) == Some((e, (e + 4, |s|))) <== 4 < e
    ensures e + 4 < |s| && s[e + 4..|s|] == v
  {
    assert IsSpace(' ');
    assert s[e..] == " " + ("in " + v);
    WsRunExact(s, e, " ", "in " + v);
    assert s[e + 1..e + 3] == "in";
    assert s[e + 3..] == " " + v;
    WsRunExact(s, e + 3, " ", v);
    assert s[|s| - 1] == v[|v| - 1];
    LazyEndNoNewline(s, e + 4, e + 5);
    assert Tail(s, e + 3) == Some((e + 4, |s|));
    assert InAt(s, e, 1) == Some((e + 4, |s|));
    assert s[e + 4..|s|] == v;
  }

  lemma {:induction false} NameEndSkips(s: string, g: nat, e: nat, stop: nat)
    requires g < e <= stop <= |s|
    requires forall p :: e <= p < stop ==> InAt(s, p, WsRun(s, p)).None?
    ensures NameEnd(s, g, e) == NameEnd(s, g, stop)
    decreases stop - e
  {
    if e < stop {
      NameEndSkips(s, g, e + 1, stop);
    }
  }

  /** The terminators: `elif x` gives `x`, and `else`, `endif`, `endfor`
      are recognised exactly. */
  lemma EndTagsCanonical(x: string)
    requires |x| >= 1 && '\n' !in x
    ensures IfEnd("elif " + x) == Some(Elif(x))
    ensures IfEnd("else") == Some(Else) && IfEnd("endif") == Some(Endif) && ForEnd("endfor") == Some(Endfor)
    ensures IfEnd("endfor").None? && ForEnd("endif").None? && ForEnd("else").None?
  {
    var s := "elif " + x;
    assert s[..5] == "elif ";
    forall k | 5 <= k < |s| ensures s[k] != '\n' {
      assert s[k] == x[k - 5];
    }
    LazyEndLine(s, 5, 6);
    assert s[5..|s|] == x;
    assert "endfor"[..4][1] != "else"[1];
    assert "endfor"[..5][3] != "endif"[3];
  }

  lemma {:induction false} LazyEndLine(s: string, g: nat, e: nat)
    requires g < e <= |s|
    requires forall k :: e - 1 <= k < |s| ==> s[k] != '\n'
    ensures LazyEnd(s, g, e, false) == Some(|s|)
    decreases |s| - e
  {
    if e < |s| {
      LazyEndLine(s, g, e + 1);
    }
  }
}
