/** Properties of the parser of src/typhoon/template.py: how block tags are
    dispatched to the macros, which compile errors a malformed template
    raises and where, and the segment tree an `if` chain compiles to. */
module ParserProperties {
  import opened Wrappers
  import opened Text
  import opened TemplateLexer
  import opened TemplateAst
  import opened TemplateMacros
  import opened TemplateParser

  /** The macros are tried in registration order and the first whose
      pattern matches builds the segment. */
  lemma {:induction false} FirstMacroWins(c: Config, h: Host, toks: seq<Token>, pos: nat, ms: seq<Macro>, content: string, name: string, k: nat)
    requires pos <= |toks| && k < |ms|
    requires forall j :: 0 <= j < k ==> MacroMatch(ms[j], content).None?
    requires MacroMatch(ms[k], content).Some?
    ensures FirstMacro(c, h, toks, pos, ms, content, name) == RunMacro(c, h, toks, pos, MacroMatch(ms[k], content).value, name)
  {
    if k > 0 {
      FirstMacroWins(c, h, toks, pos, ms[1..], content, name, k - 1);
    }
  }

  /** A tag no macro claims consumes nothing and yields None. */
  lemma {:induction false} FirstMacroNone(c: Config, h: Host, toks: seq<Token>, pos: nat, ms: seq<Macro>, content: string, name: string)
    requires pos <= |toks|
    requires forall j :: 0 <= j < |ms| ==> MacroMatch(ms[j], content).None?
    ensures FirstMacro(c, h, toks, pos, ms, content, name) == Stepped(Ok(None), pos)
  {
    if ms != [] {
      FirstMacroNone(c, h, toks, pos, ms[1..], content, name);
    }
  }

  /** At top level a non-empty tag no macro claims is a compile error on
      the tag's line. */
  lemma UnknownTagRejected(c: Config, h: Host, toks: seq<Token>, pos: nat, name: string, acc: seq<LSeg>)
    requires pos < |toks| && toks[pos].kind == BlockToken && toks[pos].content != ""
    requires forall j :: 0 <= j < |c.macros| ==> MacroMatch(c.macros[j], toks[pos].content).None?
    ensures ParseSegs(c, h, toks, pos, TopLevel, name, acc)
         == Stepped(Err(Raised(CompileError(UnknownTag(toks[pos].content), name, toks[pos].line))), pos + 1)
  {
    FirstMacroNone(c, h, toks, pos + 1, c.macros, toks[pos].content, name);
  }

  /** None of the default macros claims the empty tag. */
  lemma DefaultMacrosRejectEmpty()
    ensures forall j :: 0 <= j < |DefaultMacros| ==> MacroMatch(DefaultMacros[j], "").None?
  {
    assert !StartsWith("", "if") && !StartsWith("", "for") && !StartsWith("", "include");
  }

  /** Inside an `if` body a tag that is neither a macro nor an `if`
      terminator is a compile error on that tag's line. */
  lemma UnrecognizedEndRejected(c: Config, h: Host, toks: seq<Token>, pos: nat, name: string, acc: seq<LSeg>)
    requires pos < |toks| && toks[pos].kind == BlockToken && toks[pos].content != ""
    requires forall j :: 0 <= j < |c.macros| ==> MacroMatch(c.macros[j], toks[pos].content).None?
    requires IfEnd(toks[pos].content).None?
    ensures ParseSegs(c, h, toks, pos, InIf, name, acc)
         == Stepped(Err(Raised(CompileError(UnrecognizedEnd(toks[pos].content), name, toks[pos].line))), pos + 1)
  {
    FirstMacroNone(c, h, toks, pos + 1, c.macros, toks[pos].content, name);
  }

  /** The default macros claim `if x` as the `if` macro with expression `x`. */
  lemma IfTagDispatch(x: string)
    requires |x| >= 1 && !IsSpace(x[0]) && x[|x| - 1] != '\n'
    ensures MacroMatch(DefaultMacros[0], "if " + x) == Some(IfArgs(x))
  {
    IfAndIncludeCanonical(x);
  }

  /** Terminator tags are claimed by no macro. */
  lemma EndTagNotClaimed(s: string)
    requires IfEnd(s).Some? || ForEnd(s).Some?
    ensures forall j :: 0 <= j < |DefaultMacros| ==> MacroMatch(DefaultMacros[j], s).None?
  {
    MacrosExclusive(s);
  }

  /** `toks[pos]` is the tag `{% if x %}`. */
  predicate IfTagAt(toks: seq<Token>, pos: nat, x: string) {
    pos < |toks| && toks[pos].kind == BlockToken && toks[pos].content == "if " + x
    && |x| >= 1 && !IsSpace(x[0]) && x[|x| - 1] != '\n'
  }

  /** `toks[pos]` is the tag `{% for n in v %}`. */
  predicate ForTagAt(toks: seq<Token>, pos: nat, n: string, v: string) {
    pos < |toks| && toks[pos].kind == BlockToken && toks[pos].content == "for " + n + " in " + v
    && |n| >= 1 && (forall k :: 0 <= k < |n| ==> !IsSpace(n[k]))
    && |v| >= 1 && !IsSpace(v[0]) && v[|v| - 1] != '\n'
  }

  /** Every token from `from` on is text or an expression that compiles. */
  predicate NoTagsFrom(h: Host, toks: seq<Token>, from: nat) {
    forall k :: from <= k < |toks| ==> toks[k].kind != BlockToken && (toks[k].kind == VarToken ==> h.compiles(toks[k].content))
  }

  /** An error of the clause loop of `if` that is not yet a template error
      is reported on the line of the `if` tag, whatever the tag's
      surroundings. */
  lemma IfTagError(h: Host, toks: seq<Token>, pos: nat, x: string, rule: Rule, name: string, acc: seq<LSeg>, e: Why)
    requires IfTagAt(toks, pos, x)
    requires IfLoop(DefaultConfig, h, toks, pos + 1, x, [], false, None, name).res == Err(Raw(e))
    ensures ParseSegs(DefaultConfig, h, toks, pos, rule, name, acc).res == Err(Raised(CompileError(e, name, toks[pos].line)))
  {
    IfTagDispatch(x);
    FirstMacroWins(DefaultConfig, h, toks, pos + 1, DefaultMacros, "if " + x, name, 0);
  }

  /** A text or compiling expression token is appended to the segments and
      the parse goes on. */
  lemma BodyStep(c: Config, h: Host, toks: seq<Token>, pos: nat, rule: Rule, name: string, acc: seq<LSeg>)
    requires pos < |toks| && NoTagsFrom(h, toks, pos)
    ensures ParseSegs(c, h, toks, pos, rule, name, acc)
         == ParseSegs(c, h, toks, pos + 1, rule, name,
                      acc + [LSeg(toks[pos].line, if toks[pos].kind == StrToken then StrSeg(toks[pos].content) else VarSeg(toks[pos].content))])
  {
  }

  /** A block body that runs to the end of the tokens without a tag is the
      "could not find a corresponding" error of its block. */
  lemma {:induction false} BodyRunsToEnd(c: Config, h: Host, toks: seq<Token>, pos: nat, rule: Rule, name: string, acc: seq<LSeg>)
    requires pos <= |toks| && rule != TopLevel && NoTagsFrom(h, toks, pos)
    ensures ParseSegs(c, h, toks, pos, rule, name, acc)
         == Stepped(Err(Raw(if rule == InIf then Unterminated("if", "endif") else Unterminated("for", "endfor"))), |toks|)
    decreases |toks| - pos
  {
    if pos < |toks| {
      BodyStep(c, h, toks, pos, rule, name, acc);
      BodyRunsToEnd(c, h, toks, pos + 1, rule, name,
                    acc + [LSeg(toks[pos].line, if toks[pos].kind == StrToken then StrSeg(toks[pos].content) else VarSeg(toks[pos].content))]);
    }
  }

  /** An `if` whose `endif` never comes, because only text and expressions
      follow it, is a compile error reported on the line of the `if` tag. */
  lemma UnterminatedIf(h: Host, toks: seq<Token>, pos: nat, x: string, rule: Rule, name: string, acc: seq<LSeg>)
    requires IfTagAt(toks, pos, x) && NoTagsFrom(h, toks, pos + 1)
    ensures ParseSegs(DefaultConfig, h, toks, pos, rule, name, acc).res
         == Err(Raised(CompileError(Unterminated("if", "endif"), name, toks[pos].line)))
  {
    BodyRunsToEnd(DefaultConfig, h, toks, pos + 1, InIf, name, []);
    IfTagError(h, toks, pos, x, rule, name, acc, Unterminated("if", "endif"));
  }

  /** The same for a `for` without `endfor`. */
  lemma UnterminatedFor(h: Host, toks: seq<Token>, pos: nat, n: string, v: string, rule: Rule, name: string, acc: seq<LSeg>)
    requires ForTagAt(toks, pos, n, v) && NoTagsFrom(h, toks, pos + 1)
    ensures ParseSegs(DefaultConfig, h, toks, pos, rule, name, acc).res
         == Err(Raised(CompileError(Unterminated("for", "endfor"), name, toks[pos].line)))
  {
    BodyRunsToEnd(DefaultConfig, h, toks, pos + 1, InFor, name, []);
    ForTagError(h, toks, pos, n, v, rule, name, acc, Unterminated("for", "endfor"));
  }

  /** An error of the body of a `for` that is not yet a template error is
      reported on the line of the `for` tag. */
  lemma ForTagError(h: Host, toks: seq<Token>, pos: nat, n: string, v: string, rule: Rule, name: string, acc: seq<LSeg>, e: Why)
    requires ForTagAt(toks, pos, n, v)
    requires ParseSegs(DefaultConfig, h, toks, pos + 1, InFor, name, []).res == Err(Raw(e))
    ensures ParseSegs(DefaultConfig, h, toks, pos, rule, name, acc).res == Err(Raised(CompileError(e, name, toks[pos].line)))
  {
    ForTagDispatch(n, v);
    FirstMacroWins(DefaultConfig, h, toks, pos + 1, DefaultMacros, "for " + n + " in " + v, name, 1);
  }

  /** The default macros claim `for n in v` as the `for` macro. */
  lemma ForTagDispatch(n: string, v: string)
    requires |n| >= 1 && forall k :: 0 <= k < |n| ==> !IsSpace(n[k])
    requires |v| >= 1 && !IsSpace(v[0]) && v[|v| - 1] != '\n'
    ensures MacroMatch(DefaultMacros[0], "for " + n + " in " + v).None?
    ensures MacroMatch(DefaultMacros[1], "for " + n + " in " + v) == Some(ForArgs(n, v))
  {
    ForCanonical(n, v);
    MacrosExclusive("for " + n + " in " + v);
  }

  /** A body of one text token closed by the terminator tag `e`. */
  lemma TextThenEnd(c: Config, h: Host, toks: seq<Token>, pos: nat, name: string, e: string)
    requires pos + 1 < |toks| && toks[pos].kind == StrToken
    requires toks[pos + 1] == Token(toks[pos + 1].line, BlockToken, e) && e != "" && IfEnd(e).Some?
    requires forall j :: 0 <= j < |c.macros| ==> MacroMatch(c.macros[j], e).None?
    ensures ParseSegs(c, h, toks, pos, InIf, name, [])
         == Stepped(Ok(Ended(IfEnd(e).value, Block([LSeg(toks[pos].line, StrSeg(toks[pos].content))], name))), pos + 2)
  {
    FirstMacroNone(c, h, toks, pos + 2, c.macros, e, name);
    assert [] + [LSeg(toks[pos].line, StrSeg(toks[pos].content))] == [LSeg(toks[pos].line, StrSeg(toks[pos].content))];
  }

  /** An empty body closed by the terminator tag `e`. */
  lemma EmptyThenEnd(c: Config, h: Host, toks: seq<Token>, pos: nat, name: string, e: string)
    requires pos < |toks| && toks[pos] == Token(toks[pos].line, BlockToken, e) && e != "" && IfEnd(e).Some?
    requires forall j :: 0 <= j < |c.macros| ==> MacroMatch(c.macros[j], e).None?
    ensures ParseSegs(c, h, toks, pos, InIf, name, []) == Stepped(Ok(Ended(IfEnd(e).value, Block([], name))), pos + 1)
  {
    FirstMacroNone(c, h, toks, pos + 1, c.macros, e, name);
  }

  /** The tokens of `{% if a %}t1{% elif b %}t2{% else %}t3{% endif %}`
      on the lines `ls`. */
  function IfChainTokens(a: string, b: string, t1: string, t2: string, t3: string, ls: seq<nat>): seq<Token>
    requires |ls| == 7
  {
    [Token(ls[0], BlockToken, "if " + a), Token(ls[1], StrToken, t1),
     Token(ls[2], BlockToken, "elif " + b), Token(ls[3], StrToken, t2),
     Token(ls[4], BlockToken, "else"), Token(ls[5], StrToken, t3),
     Token(ls[6], BlockToken, "endif")]
  }

  /** `if a`, text, `elif b`, text, `else`, text, `endif` compiles to one
      `if` segment whose clauses keep the source order of their
      expressions and bodies, with the last text as the else block. */
  lemma IfChainShape(h: Host, a: string, b: string, t1: string, t2: string, t3: string, ls: seq<nat>, name: string)
    requires |ls| == 7
    requires |a| >= 1 && !IsSpace(a[0]) && a[|a| - 1] != '\n' && h.compiles(a)
    requires |b| >= 1 && '\n' !in b && h.compiles(b)
    ensures ParseSegs(DefaultConfig, h, IfChainTokens(a, b, t1, t2, t3, ls), 0, TopLevel, name, [])
         == Stepped(Ok(Segments([LSeg(ls[0], IfSeg([Clause(a, Block([LSeg(ls[1], StrSeg(t1))], name)),
                                                     Clause(b, Block([LSeg(ls[3], StrSeg(t2))], name))],
                                                    Some(Block([LSeg(ls[5], StrSeg(t3))], name))))])), 7)
  {
    var toks := IfChainTokens(a, b, t1, t2, t3, ls);
    var c := DefaultConfig;
    var cls := [Clause(a, Block([LSeg(ls[1], StrSeg(t1))], name)), Clause(b, Block([LSeg(ls[3], StrSeg(t2))], name))];
    var b3 := Block([LSeg(ls[5], StrSeg(t3))], name);
    var done := Stepped(Ok(Some(IfSeg(cls, Some(b3)))), 7);
    IfChainLoop(h, a, b, t1, t2, t3, ls, name);
    IfTagDispatch(a);
    FirstMacroWins(c, h, toks, 1, c.macros, "if " + a, name, 0);
    assert FirstMacro(c, h, toks, 1, c.macros, "if " + a, name) == done;
    assert [] + [LSeg(ls[0], IfSeg(cls, Some(b3)))] == [LSeg(ls[0], IfSeg(cls, Some(b3)))];
    assert ParseSegs(c, h, toks, 7, TopLevel, name, [LSeg(ls[0], IfSeg(cls, Some(b3)))])
        == Stepped(Ok(Segments([LSeg(ls[0], IfSeg(cls, Some(b3)))])), 7);
  }

  /** The clause loop of the chain above, from the body of the `if`. */
  lemma IfChainLoop(h: Host, a: string, b: string, t1: string, t2: string, t3: string, ls: seq<nat>, name: string)
    requires |ls| == 7
    requires h.compiles(a) && |b| >= 1 && '\n' !in b && h.compiles(b)
    ensures IfLoop(DefaultConfig, h, IfChainTokens(a, b, t1, t2, t3, ls), 1, a, [], false, None, name)
         == Stepped(Ok(Some(IfSeg([Clause(a, Block([LSeg(ls[1], StrSeg(t1))], name)),
                                   Clause(b, Block([LSeg(ls[3], StrSeg(t2))], name))],
                                  Some(Block([LSeg(ls[5], StrSeg(t3))], name))))), 7)
  {
    var toks := IfChainTokens(a, b, t1, t2, t3, ls);
    var c := DefaultConfig;
    EndTagsCanonical(b);
    var e1, e2, e3 := "elif " + b, "else", "endif";
    EndTagNotClaimed(e1);
    EndTagNotClaimed(e2);
    EndTagNotClaimed(e3);
    TextThenEnd(c, h, toks, 1, name, e1);
    TextThenEnd(c, h, toks, 3, name, e2);
    TextThenEnd(c, h, toks, 5, name, e3);
    var b1 := Block([LSeg(ls[1], StrSeg(t1))], name);
    var b2 := Block([LSeg(ls[3], StrSeg(t2))], name);
    var b3 := Block([LSeg(ls[5], StrSeg(t3))], name);
    var cls := [Clause(a, b1), Clause(b, b2)];
    var done := Stepped(Ok(Some(IfSeg(cls, Some(b3)))), 7);
    assert IfLoop(c, h, toks, 5, b, cls, true, None, name) == done;
    assert [Clause(a, b1)] + [Clause(b, b2)] == cls;
    assert IfLoop(c, h, toks, 3, b, [Clause(a, b1)], false, None, name) == done;
    assert [] + [Clause(a, b1)] == [Clause(a, b1)];
  }

  /** One step of the clause loop: a body closed by `elif e2` adds the
      clause of `expr` and goes on with `e2`; one closed by `else` adds it
      and goes on in the `else` state. */
  lemma IfLoopStep(c: Config, h: Host, toks: seq<Token>, pos: nat, expr: string, clauses: seq<Clause>,
                   elseBlock: Option<Block>, name: string)
    requires pos <= |toks| && h.compiles(expr)
    requires ParseSegs(c, h, toks, pos, InIf, name, []).res.Ok?
    ensures var b := ParseSegs(c, h, toks, pos, InIf, name, []);
      var cls := clauses + [Clause(expr, b.res.value.block)];
      && (b.res.value.tag.Elif? ==>
            IfLoop(c, h, toks, pos, expr, clauses, false, elseBlock, name)
            == IfLoop(c, h, toks, b.pos, b.res.value.tag.expr, cls, false, elseBlock, name))
      && (b.res.value.tag.Else? ==>
            IfLoop(c, h, toks, pos, expr, clauses, false, elseBlock, name)
            == IfLoop(c, h, toks, b.pos, expr, cls, true, elseBlock, name))
  {
  }

  /** `elif` after `else` is a compile error reported on the line of the
      `if` tag: for any chain that reaches the `else` state at `q` (its
      loop from `q` on is the loop from the `if`) and whose next body is
      closed by an `elif`. */
  lemma ElifAfterElseRejected(h: Host, toks: seq<Token>, pos: nat, x: string, q: nat, e: string, cls: seq<Clause>,
                              els: Option<Block>, rule: Rule, name: string, acc: seq<LSeg>)
    requires IfTagAt(toks, pos, x) && q <= |toks|
    requires IfLoop(DefaultConfig, h, toks, pos + 1, x, [], false, None, name) == IfLoop(DefaultConfig, h, toks, q, e, cls, true, els, name)
    requires var b := ParseSegs(DefaultConfig, h, toks, q, InIf, name, []); b.res.Ok? && b.res.value.tag.Elif?
    ensures ParseSegs(DefaultConfig, h, toks, pos, rule, name, acc).res == Err(Raised(CompileError(ElifAfterElse, name, toks[pos].line)))
  {
    IfTagError(h, toks, pos, x, rule, name, acc, ElifAfterElse);
  }

  /** A second `else` is a compile error reported on the line of the `if`
      tag, for any chain that reaches the `else` state. */
  lemma DoubleElseRejected(h: Host, toks: seq<Token>, pos: nat, x: string, q: nat, e: string, cls: seq<Clause>,
                           els: Option<Block>, rule: Rule, name: string, acc: seq<LSeg>)
    requires IfTagAt(toks, pos, x) && q <= |toks|
    requires IfLoop(DefaultConfig, h, toks, pos + 1, x, [], false, None, name) == IfLoop(DefaultConfig, h, toks, q, e, cls, true, els, name)
    requires var b := ParseSegs(DefaultConfig, h, toks, q, InIf, name, []); b.res.Ok? && b.res.value.tag == Else
    ensures ParseSegs(DefaultConfig, h, toks, pos, rule, name, acc).res == Err(Raised(CompileError(DoubleElse, name, toks[pos].line)))
  {
    IfTagError(h, toks, pos, x, rule, name, acc, DoubleElse);
  }

  /** A text token at top level becomes a text segment on its line. */
  lemma {:induction false} TextTokensAreTextSegments(c: Config, h: Host, toks: seq<Token>, pos: nat, name: string, acc: seq<LSeg>)
    requires pos <= |toks|
    requires forall k :: pos <= k < |toks| ==> toks[k].kind == StrToken
    ensures ParseSegs(c, h, toks, pos, TopLevel, name, acc) == Stepped(Ok(Segments(acc + TextSegments(toks[pos..]))), |toks|)
    decreases |toks| - pos
  {
    if pos == |toks| {
      assert acc + TextSegments(toks[pos..]) == acc;
    } else {
      var x := LSeg(toks[pos].line, StrSeg(toks[pos].content));
      TextTokenStep(c, h, toks, pos, name, acc);
      TextTokensAreTextSegments(c, h, toks, pos + 1, name, acc + [x]);
      TextSegmentsStep(toks, pos, acc);
    }
  }

  /** One text token is appended to the segments and the parse goes on. */
  lemma TextTokenStep(c: Config, h: Host, toks: seq<Token>, pos: nat, name: string, acc: seq<LSeg>)
    requires pos < |toks| && toks[pos].kind == StrToken
    ensures ParseSegs(c, h, toks, pos, TopLevel, name, acc)
         == ParseSegs(c, h, toks, pos + 1, TopLevel, name, acc + [LSeg(toks[pos].line, StrSeg(toks[pos].content))])
  {
  }

  lemma TextSegmentsStep(toks: seq<Token>, pos: nat, acc: seq<LSeg>)
    requires pos < |toks|
    ensures (acc + [LSeg(toks[pos].line, StrSeg(toks[pos].content))]) + TextSegments(toks[pos + 1..])
         == acc + TextSegments(toks[pos..])
  {
    assert toks[pos..][1..] == toks[pos + 1..];
  }

  /** The text segments of a list of text tokens. */
  function TextSegments(toks: seq<Token>): (r: seq<LSeg>)
    ensures |r| == |toks|
    ensures forall k :: 0 <= k < |toks| ==> r[k] == LSeg(toks[k].line, StrSeg(toks[k].content))
  {
    if toks == [] then [] else [LSeg(toks[0].line, StrSeg(toks[0].content))] + TextSegments(toks[1..])
  }
}
