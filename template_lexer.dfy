/** The tokenizer of the template engine (`Lexer` and `RE_TOKEN` in
    src/typhoon/template.py).

    `RE_TOKEN` is the alternation, tried in this order at every position:
      {#.+?#}            a comment, at least one character long, no token
      {{\s*(.*?)\s*}}    a variable
      {%\s*(.*?)\s*%}    a block tag
    compiled with DOTALL, so every part may span lines. `MatchAt` is that
    pattern at one position, `NextMatch` is one step of `finditer`, and
    `Generate` is the generator `Lexer.tokenize`; the class `Lexer` runs the
    same loop over its `index` and `lineno` fields. */
module TemplateLexer {
  import opened Wrappers
  import opened Text

  datatype TokenKind = StrToken | VarToken | BlockToken

  /** (lineno, type, contents) as yielded by `tokenize`. */
  datatype Token = Token(line: nat, kind: TokenKind, content: string)

  datatype TagKind = CommentTag | VarTag | BlockTag

  /** One match of `RE_TOKEN`: its span [start, end) and its captured group
      (for a comment, the text between the delimiters). */
  datatype Match = Match(start: nat, end: nat, kind: TagKind, content: string)

  /** The first position f >= from where the two characters a, b occur. */
  function FindPair(s: string, from: nat, a: char, b: char): (r: Option<nat>)
    decreases |s| - from
    ensures r.Some? ==> from <= r.value && r.value + 2 <= |s| && s[r.value] == a && s[r.value + 1] == b
    ensures r.Some? ==> forall k :: from <= k < r.value ==> !(s[k] == a && s[k + 1] == b)
    ensures r.None? ==> forall k :: from <= k < |s| - 1 ==> !(s[k] == a && s[k + 1] == b)
  {
    if from + 2 > |s| then None
    else if s[from] == a && s[from + 1] == b then Some(from)
    else FindPair(s, from + 1, a, b)
  }

  /** The closing delimiter found at or after `from` for an opening `{` + `second`. */
  function Closer(s: string, p: nat, second: char): (r: Option<nat>)
  {
    if second == '#' then FindPair(s, p + 3, '#', '}')
    else if second == '{' then FindPair(s, p + 2, '}', '}')
    else FindPair(s, p + 2, '%', '}')
  }

  /** `RE_TOKEN.match(s, p)`: the comment alternative needs one character
      before the first `#}`; the lazy `(.*?)` of a variable or block ends at
      the first closing delimiter, and the two `\s*` remove the whitespace
      around it. */
  function MatchAt(s: string, p: nat): (m: Option<Match>)
    ensures p + 1 >= |s| ==> m.None?
    ensures m.Some? ==> m.value.start == p && p + 4 <= m.value.end <= |s|
    ensures m.Some? && m.value.kind != CommentTag ==> Stripped(m.value.content)
  {
    if p + 1 >= |s| || s[p] != '{' || !(s[p + 1] == '#' || s[p + 1] == '{' || s[p + 1] == '%') then None
    else
      match Closer(s, p, s[p + 1])
      case None => None
      case Some(f) =>
        if s[p + 1] == '#' then Some(Match(p, f + 2, CommentTag, s[p + 2..f]))
        else if s[p + 1] == '{' then Some(Match(p, f + 2, VarTag, Strip(s[p + 2..f])))
        else Some(Match(p, f + 2, BlockTag, Strip(s[p + 2..f])))
  }

  /** The shape of a match: a comment keeps the (non-empty) text between
      its delimiters, a variable or block the text between its delimiters
      stripped of whitespace. */
  lemma MatchShape(s: string, p: nat)
    requires MatchAt(s, p).Some?
    ensures var m := MatchAt(s, p).value;
      && s[p] == '{' && s[m.end - 1] == '}'
      && (m.kind == CommentTag ==>
            p + 2 < m.end - 2 && m.content == s[p + 2..m.end - 2] && s[p + 1] == '#' && s[m.end - 2] == '#')
      && (m.kind == VarTag ==> m.content == Strip(s[p + 2..m.end - 2]) && s[p + 1] == '{' && s[m.end - 2] == '}')
      && (m.kind == BlockTag ==> m.content == Strip(s[p + 2..m.end - 2]) && s[p + 1] == '%' && s[m.end - 2] == '%')
  {
  }

  /** The next match `finditer` yields when it resumes its search at `i`. */
  function NextMatch(s: string, i: nat): (m: Option<Match>)
    decreases |s| - i
    ensures m.Some? ==> i <= m.value.start && m.value.start + 4 <= m.value.end <= |s|
  {
    if i >= |s| then None
    else
      match MatchAt(s, i)
      case Some(m) => Some(m)
      case None => NextMatch(s, i + 1)
  }

  /** `NextMatch` is the match at the first position from `i` where the
      pattern matches at all. */
  lemma {:induction false} NextMatchIsFirst(s: string, i: nat)
    decreases |s| - i
    ensures NextMatch(s, i).Some? ==> MatchAt(s, NextMatch(s, i).value.start) == NextMatch(s, i)
    ensures NextMatch(s, i).Some? ==> forall p :: i <= p < NextMatch(s, i).value.start ==> MatchAt(s, p).None?
    ensures NextMatch(s, i).None? <==> forall p :: i <= p ==> MatchAt(s, p).None?
  {
    if i < |s| && MatchAt(s, i).None? {
      NextMatchIsFirst(s, i + 1);
      forall p | i <= p && (NextMatch(s, i).None? || p < NextMatch(s, i).value.start)
        ensures MatchAt(s, p).None?
      {
        if p > i {
        }
      }
    }
  }

  function TokenKindOf(k: TagKind): TokenKind {
    if k == VarTag then VarToken else BlockToken
  }

  /** What the generator has yielded when it stops, and the final values
      of the lexer's `index` and `lineno`. */
  datatype Lexed = Lexed(tokens: seq<Token>, index: nat, lineno: nat)

  /** `Lexer.tokenize` with the regex scan resumed at `scan`, the lexer's
      `index` and `lineno` as given: the text between `index` and a match is
      a string token; a variable or block with non-empty contents is a
      token; `lineno` advances by the newlines of each yielded contents. */
  function Generate(s: string, scan: nat, index: nat, lineno: nat): (r: Lexed)
    decreases |s| - scan
  {
    match NextMatch(s, scan)
    case None =>
      Lexed(if index < |s| then [Token(lineno, StrToken, s[index..])] else [], index, lineno)
    case Some(m) =>
      var (emitted, line) := Yielded(s, m, index, lineno);
      var rest := Generate(s, m.end, m.end, line);
      Lexed(emitted + rest.tokens, rest.index, rest.lineno)
  }

  /** What one iteration of the generator yields for match `m`, and the
      `lineno` it leaves. */
  function Yielded(s: string, m: Match, index: nat, lineno: nat): (seq<Token>, nat)
    requires m.start <= |s|
  {
    var gap := if m.start > index then [Token(lineno, StrToken, s[index..m.start])] else [];
    var line1 := if m.start > index then lineno + Newlines(s[index..m.start]) else lineno;
    if m.kind != CommentTag && m.content != "" then
      (gap + [Token(line1, TokenKindOf(m.kind), m.content)], line1 + Newlines(m.content))
    else (gap, line1)
  }

  /** The token list a fresh `Lexer(s).tokenize()` yields. */
  function Tokens(s: string): seq<Token> {
    Generate(s, 0, 0, 1).tokens
  }

  /** The lexer object: the template text, and the scan state that
      `tokenize` advances. */
  class Lexer {
    const templateString: string
    var lineno: nat
    var index: nat

    constructor (templateString: string)
      ensures this.templateString == templateString && lineno == 1 && index == 0
    {
      this.templateString := templateString;
      lineno := 1;
      index := 0;
    }

    /** One iteration of the generator's loop: the string before match `m`,
        then the match's own token, each advancing `lineno`. */
    method YieldMatch(m: Match) returns (emitted: seq<Token>)
      requires m.start <= |templateString|
      modifies this`lineno
      ensures (emitted, lineno) == Yielded(templateString, m, index, old(lineno))
    {
      emitted := [];
      if m.start > index {
        var curToken := templateString[index..m.start];
        emitted := [Token(lineno, StrToken, curToken)];
        lineno := lineno + Newlines(curToken);
      }
      if m.kind != CommentTag && m.content != "" {
        emitted := emitted + [Token(lineno, TokenKindOf(m.kind), m.content)];
        lineno := lineno + Newlines(m.content);
      }
      ghost var y := Yielded(templateString, m, index, old(lineno));
      assert y.1 == lineno && y.0 == emitted;
    }

    /** Runs the generator to its end and returns everything it yields. */
    method Tokenize() returns (tokens: seq<Token>)
      modifies this
      ensures var r := Generate(templateString, 0, old(index), old(lineno));
              tokens == r.tokens && index == r.index && lineno == r.lineno
    {
      ghost var s := templateString;
      ghost var i0, l0 := index, lineno;
      var scan := 0;
      tokens := [];
      while true
        invariant var r := Generate(s, scan, index, lineno);
                  var all := Generate(s, 0, i0, l0);
                  all.tokens == tokens + r.tokens && all.index == r.index && all.lineno == r.lineno
        decreases |templateString| - scan
      {
        var bit := NextMatch(templateString, scan);
        if bit.None? {
          break;
        }
        var m := bit.value;
        var emitted := YieldMatch(m);
        assert tokens + (emitted + Generate(s, m.end, m.end, lineno).tokens)
            == (tokens + emitted) + Generate(s, m.end, m.end, lineno).tokens;
        tokens := tokens + emitted;
        index := m.end;
        scan := m.end;
      }
      if index < |templateString| {
        tokens := tokens + [Token(lineno, StrToken, templateString[index..])];
      }
    }
  }

  // ---------------------------------------------------------------------
  // The decomposition of a text into the gaps between matches and the
  // matches themselves.

  datatype Piece = Gap(text: string) | Tag(kind: TagKind, raw: string, content: string)

  /** `text[i..]` cut at every `RE_TOKEN` match, in order. */
  function Pieces(s: string, i: nat): seq<Piece>
    requires i <= |s|
    decreases |s| - i
  {
    match NextMatch(s, i)
    case None => if i < |s| then [Gap(s[i..])] else []
    case Some(m) => Head(s, m, i) + Pieces(s, m.end)
  }

  /** The gap before match `m` (if any) and the match itself. */
  function Head(s: string, m: Match, i: nat): seq<Piece>
    requires i <= m.start <= m.end <= |s|
  {
    (if m.start > i then [Gap(s[i..m.start])] else []) + [Tag(m.kind, s[m.start..m.end], m.content)]
  }

  /** The source text of a piece list. */
  function Raw(ps: seq<Piece>): string {
    if ps == [] then ""
    else (match ps[0] case Gap(t) => t case Tag(_, r, _) => r) + Raw(ps[1..])
  }

  /** The tokens a piece list stands for: each gap verbatim, each variable
      or block with non-empty contents, nothing for a comment; the line
      advances by the newlines of what is emitted. */
  function Emit(ps: seq<Piece>, line: nat): seq<Token> {
    if ps == [] then []
    else
      match ps[0]
      case Gap(t) => [Token(line, StrToken, t)] + Emit(ps[1..], line + Newlines(t))
      case Tag(k, _, c) =>
        if k == CommentTag || c == "" then Emit(ps[1..], line)
        else [Token(line, TokenKindOf(k), c)] + Emit(ps[1..], line + Newlines(c))
  }

  /** Joined contents of a token list. */
  function Contents(ts: seq<Token>): string {
    if ts == [] then "" else ts[0].content + Contents(ts[1..])
  }

  /** Every gap piece is non-empty, every variable or block is stripped. */
  predicate PiecesWellFormed(ps: seq<Piece>) {
    forall k :: 0 <= k < |ps| ==>
      (ps[k].Gap? ==> ps[k].text != "") && (ps[k].Tag? && ps[k].kind != CommentTag ==> Stripped(ps[k].content))
  }

  /** Every token has non-empty contents and a variable or block token has no
      whitespace at either end. */
  predicate TokensWellFormed(ts: seq<Token>) {
    forall k :: 0 <= k < |ts| ==> ts[k].content != "" && (ts[k].kind != StrToken ==> Stripped(ts[k].content))
  }

  // ---------------------------------------------------------------------
  // Properties of the tokenizer.

  lemma {:induction false} RawAppend(a: seq<Piece>, b: seq<Piece>)
    ensures Raw(a + b) == Raw(a) + Raw(b)
  {
    if a == [] {
      assert a + b == b;
    } else {
      assert (a + b)[1..] == a[1..] + b;
      RawAppend(a[1..], b);
    }
  }

  /** The pieces are a partition of the text: their source texts, in
      order, spell it out exactly. */
  lemma {:induction false} PiecesPartition(s: string, i: nat)
    requires i <= |s|
    ensures Raw(Pieces(s, i)) == s[i..]
    decreases |s| - i
  {
    match NextMatch(s, i)
    case None =>
      if i < |s| {
        assert Raw([Gap(s[i..])]) == s[i..] + Raw([]);
      }
    case Some(m) =>
      PiecesPartition(s, m.end);
      HeadRaw(s, m, i);
      RawAppend(Head(s, m, i), Pieces(s, m.end));
      assert s[i..] == s[i..m.end] + s[m.end..];
  }

  /** The gap and the match together spell `s[i..m.end]`. */
  lemma HeadRaw(s: string, m: Match, i: nat)
    requires i <= m.start <= m.end <= |s|
    ensures Raw(Head(s, m, i)) == s[i..m.end]
  {
    var gap: seq<Piece> := if m.start > i then [Gap(s[i..m.start])] else [];
    var tag := [Tag(m.kind, s[m.start..m.end], m.content)];
    assert Head(s, m, i) == gap + tag;
    RawAppend(gap, tag);
    assert Raw(tag) == s[m.start..m.end] + Raw([]);
    if m.start > i {
      assert Raw(gap) == s[i..m.start] + Raw([]);
    }
    assert s[i..m.end] == s[i..m.start] + s[m.start..m.end];
  }

  /** The tokens of one piece, and the line after it. */
  function EmitOne(pc: Piece, line: nat): (seq<Token>, nat) {
    match pc
    case Gap(t) => ([Token(line, StrToken, t)], line + Newlines(t))
    case Tag(k, _, c) =>
      if k == CommentTag || c == "" then ([], line) else ([Token(line, TokenKindOf(k), c)], line + Newlines(c))
  }

  lemma EmitCons(pc: Piece, ps: seq<Piece>, line: nat)
    ensures Emit([pc] + ps, line) == EmitOne(pc, line).0 + Emit(ps, EmitOne(pc, line).1)
  {
    assert ([pc] + ps)[0] == pc && ([pc] + ps)[1..] == ps;
  }

  /** One iteration of the generator emits what the head pieces stand for. */
  lemma EmitHead(s: string, m: Match, i: nat, rest: seq<Piece>, line: nat)
    requires i <= m.start <= m.end <= |s|
    ensures var y := Yielded(s, m, i, line); Emit(Head(s, m, i) + rest, line) == y.0 + Emit(rest, y.1)
  {
    var tag := Tag(m.kind, s[m.start..m.end], m.content);
    if m.start > i {
      var g := Gap(s[i..m.start]);
      assert Head(s, m, i) + rest == [g] + ([tag] + rest);
      EmitCons(g, [tag] + rest, line);
      EmitCons(tag, rest, EmitOne(g, line).1);
    } else {
      assert Head(s, m, i) + rest == [tag] + rest;
      EmitCons(tag, rest, line);
    }
  }

  /** The generator yields exactly the tokens the pieces stand for. */
  lemma {:induction false} GenerateIsEmit(s: string, i: nat, line: nat)
    requires i <= |s|
    ensures Generate(s, i, i, line).tokens == Emit(Pieces(s, i), line)
    decreases |s| - i
  {
    match NextMatch(s, i)
    case None =>
      if i < |s| {
        EmitCons(Gap(s[i..]), [], line);
      }
    case Some(m) =>
      var y := Yielded(s, m, i, line);
      GenerateIsEmit(s, m.end, y.1);
      EmitHead(s, m, i, Pieces(s, m.end), line);
  }

  lemma {:induction false} ContentsPrefix(t: Token, ts: seq<Token>, k: nat)
    requires 1 <= k <= |ts| + 1
    ensures Contents(([t] + ts)[..k]) == t.content + Contents(ts[..k - 1])
  {
    assert ([t] + ts)[..k] == [t] + ts[..k - 1];
    assert ([t] + ts[..k - 1])[1..] == ts[..k - 1];
  }

  /** Line numbering: each emitted token carries the starting line plus the
      newlines in the contents of the tokens emitted before it; a comment
      or the whitespace stripped from a tag advances nothing. */
  lemma {:induction false} EmitLines(ps: seq<Piece>, line: nat)
    ensures forall k :: 0 <= k < |Emit(ps, line)| ==>
              Emit(ps, line)[k].line == line + Newlines(Contents(Emit(ps, line)[..k]))
  {
    if ps != [] {
      match ps[0]
      case Gap(t) =>
        var rest := Emit(ps[1..], line + Newlines(t));
        EmitLines(ps[1..], line + Newlines(t));
        forall k | 0 <= k < |Emit(ps, line)|
          ensures Emit(ps, line)[k].line == line + Newlines(Contents(Emit(ps, line)[..k]))
        {
          var tok := Token(line, StrToken, t);
          if k > 0 {
            ContentsPrefix(tok, rest, k);
            NewlinesAppend(t, Contents(rest[..k - 1]));
          } else {
            assert Emit(ps, line)[..0] == [];
          }
        }
      case Tag(kd, _, c) =>
        if kd == CommentTag || c == "" {
          EmitLines(ps[1..], line);
        } else {
          var rest := Emit(ps[1..], line + Newlines(c));
          EmitLines(ps[1..], line + Newlines(c));
          forall k | 0 <= k < |Emit(ps, line)|
            ensures Emit(ps, line)[k].line == line + Newlines(Contents(Emit(ps, line)[..k]))
          {
            var tok := Token(line, TokenKindOf(kd), c);
            if k > 0 {
              ContentsPrefix(tok, rest, k);
              NewlinesAppend(c, Contents(rest[..k - 1]));
            } else {
              assert Emit(ps, line)[..0] == [];
            }
          }
        }
    }
  }

  /** Line numbers start at 1 and advance only by the newlines of the
      contents of earlier tokens (src/typhoon/template.py, `lineno`). */
  lemma TokensLineNumbers(s: string)
    ensures forall k :: 0 <= k < |Tokens(s)| ==> Tokens(s)[k].line == 1 + Newlines(Contents(Tokens(s)[..k]))
  {
    GenerateIsEmit(s, 0, 1);
    EmitLines(Pieces(s, 0), 1);
  }

  lemma {:induction false} PiecesAreWellFormed(s: string, i: nat)
    requires i <= |s|
    ensures PiecesWellFormed(Pieces(s, i))
    decreases |s| - i
  {
    match NextMatch(s, i)
    case None =>
    case Some(m) =>
      HeadWellFormed(s, i, m);
      PiecesAreWellFormed(s, m.end);
      WellFormedAppend(Head(s, m, i), Pieces(s, m.end));
  }

  /** The gap before a match is non-empty and its contents are stripped. */
  lemma HeadWellFormed(s: string, i: nat, m: Match)
    requires i <= |s| && NextMatch(s, i) == Some(m)
    ensures PiecesWellFormed(Head(s, m, i))
  {
    NextMatchIsFirst(s, i);
    var tag := Tag(m.kind, s[m.start..m.end], m.content);
    if m.start > i {
      assert Head(s, m, i) == [Gap(s[i..m.start]), tag];
    } else {
      assert Head(s, m, i) == [tag];
    }
  }

  lemma WellFormedAppend(a: seq<Piece>, b: seq<Piece>)
    requires PiecesWellFormed(a) && PiecesWellFormed(b)
    ensures PiecesWellFormed(a + b)
  {
    forall k | 0 <= k < |a + b| ensures (a + b)[k] == if k < |a| then a[k] else b[k - |a|] { }
  }

  lemma {:induction false} EmitWellFormed(ps: seq<Piece>, line: nat)
    requires PiecesWellFormed(ps)
    ensures TokensWellFormed(Emit(ps, line))
  {
    if ps != [] {
      assert PiecesWellFormed(ps[1..]) by {
        forall k | 0 <= k < |ps[1..]| ensures ps[1..][k] == ps[k + 1] { }
      }
      match ps[0]
      case Gap(t) => EmitWellFormed(ps[1..], line + Newlines(t));
      case Tag(kd, _, c) =>
        if kd == CommentTag || c == "" {
          EmitWellFormed(ps[1..], line);
        } else {
          EmitWellFormed(ps[1..], line + Newlines(c));
        }
    }
  }

  /** Every token has non-empty contents, and the contents of a variable or
      block token carry no surrounding whitespace. */
  lemma TokensAreWellFormed(s: string)
    ensures TokensWellFormed(Tokens(s))
  {
    GenerateIsEmit(s, 0, 1);
    PiecesAreWellFormed(s, 0);
    EmitWellFormed(Pieces(s, 0), 1);
  }

  /** No `{#`, `{{` or `{%` anywhere: no position starts a match. */
  predicate NoTagOpener(s: string) {
    forall k :: 0 <= k < |s| - 1 ==> !(s[k] == '{' && (s[k + 1] == '#' || s[k + 1] == '{' || s[k + 1] == '%'))
  }

  /** A text without tag openers is one string token holding all of it. */
  lemma PlainTextIsOneToken(s: string)
    requires NoTagOpener(s)
    ensures Tokens(s) == if s == "" then [] else [Token(1, StrToken, s)]
  {
    assert forall p :: MatchAt(s, p).None?;
    NextMatchIsFirst(s, 0);
  }

  /** A comment, which may span lines, yields no token: only the text before
      it is emitted. */
  lemma CommentEmitsNothing(a: string, c: string)
    requires '{' !in a
    requires |c| >= 1
    requires forall k :: 1 <= k < |c| - 1 ==> !(c[k] == '#' && c[k + 1] == '}')
    ensures Tokens(a + "{#" + c + "#}") == if a == "" then [] else [Token(1, StrToken, a)]
  {
    var s := a + "{#" + c + "#}";
    var m := Match(|a|, |s|, CommentTag, c);
    CommentMatches(a, c);
    NoMatchBefore(a, "{#" + c + "#}");
    NextMatchIsFirst(s, 0);
    assert NextMatch(s, 0) == Some(m);
    LastMatchTokens(s, m);
    if a != "" {
      assert s[0..|a|] == a;
    }
  }

  /** The tag `{%w%}` (`second == '%'`) or `{{w}}` (`second == '{'`). */
  function TagText(second: char, w: string): string {
    ['{', second] + w + [if second == '%' then '%' else '}', '}']
  }

  /** A tag holding only whitespace, `{% %}` or `{{ }}`, yields no token:
      the texts on either side of it are both emitted, the second one on
      the line the first one leaves. */
  lemma EmptyTagEmitsNothing(a: string, second: char, w: string, b: string)
    requires '{' !in a && '{' !in b
    requires second == '%' || second == '{'
    requires forall k :: 0 <= k < |w| ==> IsSpace(w[k])
    ensures Tokens(a + TagText(second, w) + b)
         == (if a == "" then [] else [Token(1, StrToken, a)]) + (if b == "" then [] else [Token(1 + Newlines(a), StrToken, b)])
  {
    var tag := TagText(second, w);
    var m := Match(|a|, |a + tag|, if second == '%' then BlockTag else VarTag, "");
    EmptyTagFirstMatch(a, second, w, b);
    TextTail(a + tag, b, 1 + Newlines(a));
    FirstMatchTokens(a + tag + b, m, if a == "" then [] else [Token(1, StrToken, a)], 1 + Newlines(a),
                     if b == "" then [] else [Token(1 + Newlines(a), StrToken, b)]);
  }

  /** The first match of such a text is the empty tag, and it yields the
      text before it. */
  lemma EmptyTagFirstMatch(a: string, second: char, w: string, b: string)
    requires '{' !in a
    requires second == '%' || second == '{'
    requires forall k :: 0 <= k < |w| ==> IsSpace(w[k])
    ensures var s := a + TagText(second, w) + b;
      var m := Match(|a|, |a + TagText(second, w)|, if second == '%' then BlockTag else VarTag, "");
      NextMatch(s, 0) == Some(m) && Yielded(s, m, 0, 1) == (if a == "" then [] else [Token(1, StrToken, a)], 1 + Newlines(a))
  {
    var tag := TagText(second, w);
    var s := a + tag + b;
    assert s == a + (tag + b);
    var m := Match(|a|, |a| + |tag|, if second == '%' then BlockTag else VarTag, "");
    EmptyTagMatches(a, second, w, b);
    FirstMatchAfter(a, tag + b, m);
    assert s[..|a|] == a;
    EmptyMatchYields(s, m, a);
  }

  /** After a text without `{`, the first match is the one right after it. */
  lemma FirstMatchAfter(a: string, rest: string, m: Match)
    requires '{' !in a && MatchAt(a + rest, |a|) == Some(m)
    ensures NextMatch(a + rest, 0) == Some(m)
  {
    NoMatchBefore(a, rest);
    NextMatchIsFirst(a + rest, 0);
  }

  /** A match with nothing to emit after the text `a` yields `a` alone. */
  lemma EmptyMatchYields(s: string, m: Match, a: string)
    requires m.start == |a| <= |s| && s[..|a|] == a && m.content == ""
    ensures Yielded(s, m, 0, 1) == (if a == "" then [] else [Token(1, StrToken, a)], 1 + Newlines(a))
  {
    assert s[0..m.start] == a;
  }

  /** A text yields what its first match yields, then what the scan from
      the end of that match yields. */
  lemma FirstMatchTokens(s: string, m: Match, first: seq<Token>, line: nat, rest: seq<Token>)
    requires NextMatch(s, 0) == Some(m) && Yielded(s, m, 0, 1) == (first, line)
    requires Generate(s, m.end, m.end, line).tokens == rest
    ensures Tokens(s) == first + rest
  {
  }

  /** After the last tag, a text without `{` is emitted whole. */
  lemma TextTail(pre: string, b: string, line: nat)
    requires '{' !in b
    ensures Generate(pre + b, |pre|, |pre|, line).tokens == if b == "" then [] else [Token(line, StrToken, b)]
  {
    var s := pre + b;
    forall q | |pre| <= q ensures MatchAt(s, q).None? {
      if q < |s| {
        assert s[q] == b[q - |pre|];
      }
    }
    NextMatchIsFirst(s, |pre|);
    assert s[|pre|..] == b;
  }

  /** The whitespace-only tag right after `a` matches with empty contents. */
  lemma EmptyTagMatches(a: string, second: char, w: string, b: string)
    requires second == '%' || second == '{'
    requires forall k :: 0 <= k < |w| ==> IsSpace(w[k])
    ensures MatchAt(a + TagText(second, w) + b, |a|)
         == Some(Match(|a|, |a| + |TagText(second, w)|, if second == '%' then BlockTag else VarTag, ""))
  {
    var close := if second == '%' then '%' else '}';
    var tag := ['{', second] + w + [close, '}'];
    var s := a + tag + b;
    var p := |a|;
    var f := p + 2 + |w|;
    assert s[f] == close && s[f + 1] == '}';
    forall k | p + 2 <= k < f ensures !(s[k] == close && s[k + 1] == '}') {
      assert s[k] == w[k - p - 2];
    }
    assert Closer(s, p, second) == Some(f);
    assert s[p] == '{' && s[p + 1] == second;
    assert s[p + 2..f] == w;
    StripSlice(w);
  }

  /** `{#c#}` right after `a` is a comment match reaching the end. */
  lemma CommentMatches(a: string, c: string)
    requires |c| >= 1
    requires forall k :: 1 <= k < |c| - 1 ==> !(c[k] == '#' && c[k + 1] == '}')
    ensures MatchAt(a + "{#" + c + "#}", |a|) == Some(Match(|a|, |a| + |c| + 4, CommentTag, c))
  {
    var s := a + "{#" + c + "#}";
    var p := |a|;
    var f := p + 2 + |c|;
    assert s[f] == '#' && s[f + 1] == '}';
    forall k | p + 3 <= k < f ensures !(s[k] == '#' && s[k + 1] == '}') {
      assert s[k] == c[k - p - 2];
      if k + 1 < f {
        assert s[k + 1] == c[k - p - 1];
      }
    }
    assert FindPair(s, p + 3, '#', '}') == Some(f);
    assert s[p] == '{' && s[p + 1] == '#';
    assert s[p + 2..f] == c;
  }

  /** No match starts inside a text without `{`. */
  lemma NoMatchBefore(a: string, rest: string)
    requires '{' !in a
    ensures forall q :: 0 <= q < |a| ==> MatchAt(a + rest, q).None?
  {
    forall q | 0 <= q < |a| ensures MatchAt(a + rest, q).None? {
      assert (a + rest)[q] == a[q];
    }
  }

  /** A text whose first match runs to its end yields what that match
      yields. */
  lemma LastMatchTokens(s: string, m: Match)
    requires NextMatch(s, 0) == Some(m) && m.end == |s|
    ensures Tokens(s) == Yielded(s, m, 0, 1).0
  {
    assert NextMatch(s, |s|).None?;
    assert Generate(s, |s|, |s|, Yielded(s, m, 0, 1).1).tokens == [];
  }

  /** A variable tag is emitted with the whitespace around its contents
      removed, and an empty one emits nothing. */
  lemma SingleVariable(inner: string)
    requires '}' !in inner
    ensures Tokens("{{" + inner + "}}") == if Strip(inner) == "" then [] else [Token(1, VarToken, Strip(inner))]
  {
    var s := "{{" + inner + "}}";
    var f := 2 + |inner|;
    assert s[f] == '}' && s[f + 1] == '}';
    forall k | 2 <= k < f ensures s[k] != '}' {
      assert s[k] == inner[k - 2];
    }
    assert FindPair(s, 2, '}', '}') == Some(f);
    assert s[2..f] == inner;
    var m := Match(0, |s|, VarTag, Strip(inner));
    assert MatchAt(s, 0) == Some(m);
    assert NextMatch(s, 0) == Some(m);
    assert NextMatch(s, |s|).None?;
    assert Generate(s, |s|, |s|, Yielded(s, m, 0, 1).1).tokens == [];
  }
}
