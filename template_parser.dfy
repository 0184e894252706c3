/** The recursive-descent parser of src/typhoon/template.py (`Parser`,
    `parse_template_segment`, `parse_all_segments`, `parse_block` and the
    macros `if_macro`, `for_macro`, `include_macro`).

    All the nested parses of one compile read one token iterator; here the
    iterator is a token list and a position, and every function returns the
    position it leaves. `ParseSegs` is `parse_template_segment` with the
    end-of-segment handler chosen by `rule`; `FirstMacro` is its loop over
    the registered macros; `RunMacro` and `IfLoop` are the macro bodies.

    Exceptions: an exception that is not a `TemplateCompileError` raised
    while a token is processed becomes a `TemplateCompileError` carrying
    the template name and that token's line; one that already is a
    `TemplateCompileError` passes unchanged. The handler call at the end of
    the token stream is outside that `try`, so "could not find a
    corresponding end tag" reaches the enclosing token, the block tag
    whose body was being parsed. */
module TemplateParser {
  import opened Wrappers
  import opened Text
  import opened TemplateLexer
  import opened TemplateAst
  import opened TemplateMacros

  /** Which end-of-segment handler is in force: the one of
      `parse_all_segments`, or the one `parse_block` builds for
      (`if`, `endif`, `RE_IF_BLOCK`) or for (`for`, `endfor`, `RE_ENDFOR`). */
  datatype Rule = TopLevel | InIf | InFor

  /** What a handler returns: the segment list (top level), or the
      terminator match and the block it closes. */
  datatype Parsed = Segments(segs: seq<LSeg>) | Ended(tag: EndTag, block: Block)

  /** A result and the token position after it. */
  datatype Stepped<T> = Stepped(res: Result<T, Failure>, pos: nat)

  /** The macros and the extension-to-escape-function map of a `Parser`. */
  datatype Config = Config(macros: seq<Macro>, escapeFuncs: map<string, Value>)

  /** `DEFAULT_ESCAPE_FUNCS`. */
  const DefaultEscapeFuncs: map<string, Value> := map[".html" := EscapeHtmlV, ".htm" := EscapeHtmlV]

  /** `default_parser`. */
  const DefaultConfig: Config := Config(DefaultMacros, DefaultEscapeFuncs)

  /** Only compile errors leave the parser. */
  predicate CompileFailure(f: Failure) {
    f.Raised? ==> f.err.CompileError?
  }

  /** The `except` clauses of `parse_template_segment`. */
  function Wrap(f: Failure, name: string, line: nat): (r: Failure)
    ensures r.Raised?
    ensures f.Raw? ==> r.err == CompileError(f.why, name, line)
    ensures f.Raised? ==> r == f
  {
    match f
    case Raised(_) => f
    case Raw(w) => Raised(CompileError(w, name, line))
  }

  /** The end-of-segment handlers; `content` is None at the end of the
      token stream. */
  function EndHandler(rule: Rule, content: Option<string>, segs: seq<LSeg>, name: string): (r: Result<Parsed, Failure>)
    ensures r.Err? ==> r.error.Raw?
    ensures rule == TopLevel ==> (r.Ok? <==> (content.None? || content.value == ""))
    ensures rule == TopLevel && r.Ok? ==> r.value == Segments(segs)
    ensures rule != TopLevel && r.Ok? ==> r.value.Ended? && r.value.block == Block(segs, name) && content.Some?
    ensures rule == InIf && r.Ok? ==> IfEnd(content.value) == Some(r.value.tag)
    ensures rule == InFor && r.Ok? ==> ForEnd(content.value) == Some(r.value.tag)
    ensures rule != TopLevel && (content.None? || content.value == "") ==>
              r == Err(Raw(if rule == InIf then Unterminated("if", "endif") else Unterminated("for", "endfor")))
  {
    match rule
    case TopLevel =>
      if content.Some? && content.value != "" then Err(Raw(UnknownTag(content.value))) else Ok(Segments(segs))
    case InIf =>
      if content.None? || content.value == "" then Err(Raw(Unterminated("if", "endif")))
      else if IfEnd(content.value).None? then Err(Raw(UnrecognizedEnd(content.value)))
      else Ok(Ended(IfEnd(content.value).value, Block(segs, name)))
    case InFor =>
      if content.None? || content.value == "" then Err(Raw(Unterminated("for", "endfor")))
      else if ForEnd(content.value).None? then Err(Raw(UnrecognizedEnd(content.value)))
      else Ok(Ended(ForEnd(content.value).value, Block(segs, name)))
  }

  /** A template error raised inside the tokens [from, to) names the
      template and the line of one of those tokens. */
  predicate Attributed(f: Failure, toks: seq<Token>, from: nat, to: nat, name: string)
    requires to <= |toks|
  {
    f.Raised? ==> f.err.name == name && exists k :: from <= k < to && toks[k].line == f.err.line
  }

  /** `parse_template_segment` from token `pos` on, with the segments
      collected so far in `acc`. */
  function ParseSegs(c: Config, h: Host, toks: seq<Token>, pos: nat, rule: Rule, name: string, acc: seq<LSeg>): (r: Stepped<Parsed>)
    requires pos <= |toks|
    ensures pos <= r.pos <= |toks|
    ensures r.res.Ok? && r.res.value.Ended? ==> pos < r.pos
    ensures rule == TopLevel ==> (r.res.Ok? ==> r.res.value.Segments?) && (r.res.Err? ==> r.res.error.Raised?)
    ensures rule != TopLevel && r.res.Ok? ==> r.res.value.Ended? && r.res.value.block.name == name
    ensures rule == InIf && r.res.Ok? ==> !r.res.value.tag.Endfor?
    ensures rule == InFor && r.res.Ok? ==> r.res.value.tag == Endfor
    ensures r.res.Err? ==> CompileFailure(r.res.error) && Attributed(r.res.error, toks, pos, r.pos, name)
    ensures r.res.Ok? && SegsNamed(acc, name) ==>
              (r.res.value.Segments? ==> SegsNamed(r.res.value.segs, name))
              && (r.res.value.Ended? ==> BlockNamed(r.res.value.block, name))
    ensures r.res.Err? && r.res.error.Raw? ==>
              rule != TopLevel && r.pos == |toks|
              && r.res.error.why == if rule == InIf then Unterminated("if", "endif") else Unterminated("for", "endfor")
    decreases |toks| - pos, 0, 0
  {
    if pos == |toks| then Stepped(EndHandler(rule, None, acc, name), pos)
    else
      var t := toks[pos];
      match t.kind
      case StrToken =>
        SegsNamedAppend(acc, LSeg(t.line, StrSeg(t.content)), name);
        ParseSegs(c, h, toks, pos + 1, rule, name, acc + [LSeg(t.line, StrSeg(t.content))])
      case VarToken =>
        SegsNamedAppend(acc, LSeg(t.line, VarSeg(t.content)), name);
        if h.compiles(t.content) then ParseSegs(c, h, toks, pos + 1, rule, name, acc + [LSeg(t.line, VarSeg(t.content))])
        else Stepped(Err(Raised(CompileError(BadExpression(t.content), name, t.line))), pos + 1)
      case BlockToken =>
        var m := FirstMacro(c, h, toks, pos + 1, c.macros, t.content, name);
        if m.res.Err? then Stepped(Err(Wrap(m.res.error, name, t.line)), m.pos)
        else if m.res.value.Some? then ParseSegs(c, h, toks, m.pos, rule, name, acc + [LSeg(t.line, m.res.value.value)])
        else
          var e := EndHandler(rule, Some(t.content), acc, name);
          Stepped(if e.Err? then Err(Wrap(e.error, name, t.line)) else e, pos + 1)
  }

  /** The loop over the registered macros: the first whose pattern
      matches builds the segment; None if none does. */
  function FirstMacro(c: Config, h: Host, toks: seq<Token>, pos: nat, ms: seq<Macro>, content: string, name: string): (r: Stepped<Option<Segment>>)
    requires pos <= |toks|
    ensures pos <= r.pos <= |toks|
    ensures r.res.Ok? && r.res.value.None? ==> r.pos == pos
    ensures r.res.Err? ==> CompileFailure(r.res.error) && Attributed(r.res.error, toks, pos, r.pos, name)
    ensures r.res.Ok? && r.res.value.Some? ==> SegNamed(r.res.value.value, name)
    decreases |toks| - pos, 3, |ms|
  {
    if ms == [] then Stepped(Ok(None), pos)
    else
      match MacroMatch(ms[0], content)
      case None => FirstMacro(c, h, toks, pos, ms[1..], content, name)
      case Some(args) => RunMacro(c, h, toks, pos, args, name)
  }

  /** The body of the macro whose pattern matched, given its groups. */
  function RunMacro(c: Config, h: Host, toks: seq<Token>, pos: nat, args: MacroArgs, name: string): (r: Stepped<Option<Segment>>)
    requires pos <= |toks|
    ensures pos <= r.pos <= |toks|
    ensures r.res.Ok? ==> r.res.value.Some?
    ensures r.res.Err? ==> CompileFailure(r.res.error) && Attributed(r.res.error, toks, pos, r.pos, name)
    ensures r.res.Ok? && r.res.value.Some? ==> SegNamed(r.res.value.value, name)
    decreases |toks| - pos, 2, 0
  {
    match args
    case IfArgs(e) => IfLoop(c, h, toks, pos, e, [], false, None, name)
    case ForArgs(n, v) =>
      var b := ParseSegs(c, h, toks, pos, InFor, name, []);
      if b.res.Err? then Stepped(Err(b.res.error), b.pos)
      else if h.compiles(v) then Stepped(Ok(Some(ForSeg(NameSetter(n), v, b.res.value.block))), b.pos)
      else Stepped(Err(Raw(BadExpression(v))), b.pos)
    case IncludeArgs(e) =>
      if h.compiles(e) then Stepped(Ok(Some(IncludeSeg(e))), pos) else Stepped(Err(Raw(BadExpression(e))), pos)
  }

  /** The `while True` loop of `if_macro`: `expr` is the expression of the
      clause whose body is parsed next, `elseTag` records that `else` was
      seen. A clause's expression is compiled after its body is parsed. */
  function IfLoop(c: Config, h: Host, toks: seq<Token>, pos: nat, expr: string, clauses: seq<Clause>,
                  elseTag: bool, elseBlock: Option<Block>, name: string): (r: Stepped<Option<Segment>>)
    requires pos <= |toks|
    ensures pos <= r.pos <= |toks|
    ensures r.res.Ok? ==> r.res.value.Some? && r.res.value.value.IfSeg?
    ensures r.res.Err? ==> CompileFailure(r.res.error) && Attributed(r.res.error, toks, pos, r.pos, name)
    ensures (r.res.Ok? && (forall j :: 0 <= j < |clauses| ==> BlockNamed(clauses[j].body, name))
             && (elseBlock.Some? ==> BlockNamed(elseBlock.value, name))) ==> SegNamed(r.res.value.value, name)
    // the clauses gathered so far stay first, in order
    ensures r.res.Ok? ==> |clauses| <= |r.res.value.value.clauses| && r.res.value.value.clauses[..|clauses|] == clauses
    // the body parsed next is the clause of `expr`, or after `else` the else block, which `endif` must close
    ensures r.res.Ok? ==>
              var b := ParseSegs(c, h, toks, pos, InIf, name, []);
              b.res.Ok? &&
              if elseTag then
                b.res.value.tag == Endif && r.res.value.value.clauses == clauses
                && r.res.value.value.elseBlock == Some(b.res.value.block)
              else
                |clauses| < |r.res.value.value.clauses| && r.res.value.value.clauses[|clauses|] == Clause(expr, b.res.value.block)
    // after `else`, an `elif` or a second `else` is an error
    ensures elseTag ==>
              var b := ParseSegs(c, h, toks, pos, InIf, name, []);
              b.res.Ok? && !b.res.value.tag.Endif? ==>
                r == Stepped(Err(Raw(if b.res.value.tag.Elif? then ElifAfterElse else DoubleElse)), b.pos)
    decreases |toks| - pos, 1, 0
  {
    var b := ParseSegs(c, h, toks, pos, InIf, name, []);
    if b.res.Err? then Stepped(Err(b.res.error), b.pos)
    else if !elseTag && !h.compiles(expr) then Stepped(Err(Raw(BadExpression(expr))), b.pos)
    else
      var blk := b.res.value.block;
      var cls := if elseTag then clauses else clauses + [Clause(expr, blk)];
      var els := if elseTag then Some(blk) else elseBlock;
      match b.res.value.tag
      case Elif(e2) =>
        if elseTag then Stepped(Err(Raw(ElifAfterElse)), b.pos) else IfLoop(c, h, toks, b.pos, e2, cls, false, els, name)
      case Else =>
        if elseTag then Stepped(Err(Raw(DoubleElse)), b.pos) else IfLoop(c, h, toks, b.pos, expr, cls, true, els, name)
      case Endif => Stepped(Ok(Some(IfSeg(cls, els))), b.pos)
  }

  // ---------------------------------------------------------------------
  // Parser.compile

  /** The position of the last `c` in `s`, or -1. */
  function LastIndex(s: string, c: char): (r: int)
    ensures -1 <= r < |s|
    ensures r >= 0 ==> s[r] == c
    ensures forall k :: r < k < |s| ==> s[k] != c
  {
    if s == [] then -1
    else if s[|s| - 1] == c then |s| - 1
    else LastIndex(s[..|s| - 1], c)
  }

  /** Is there a character other than `.` in s[from..to]? */
  predicate HasNonDot(s: string, from: nat, to: nat)
    requires from <= to <= |s|
  {
    exists k :: from <= k < to && s[k] != '.'
  }

  /** The extension of `os.path.splitext`: from the last dot of the last
      path component, unless everything before that dot in the component
      is a dot. */
  function Ext(p: string): (e: string)
    ensures e == "" || (e[0] == '.' && '/' !in e && '.' !in e[1..])
    ensures |e| <= |p| && e == p[|p| - |e|..]
  {
    var sep := LastIndex(p, '/');
    var dot := LastIndex(p, '.');
    if dot > sep && HasNonDot(p, sep + 1, dot) then
      assert forall k :: 1 <= k < |p[dot..]| ==> p[dot..][k] == p[dot + k];
      p[dot..]
    else ""
  }

  /** The meta dictionary of `compile`: `__name__` and the escape function
      chosen by the extension (None when there is none), overridden by the
      caller's meta. */
  function CompileMeta(c: Config, name: string, meta: map<string, Value>): map<string, Value> {
    map["__name__" := StrV(name), "__escape__" := Get(c.escapeFuncs, Ext(name))] + meta
  }

  /** `Parser.compile`: tokenize, parse the top level, and build the
      template; a missing `params` or `meta` is an empty map. */
  function Compiled(c: Config, h: Host, text: string, name: string, params: map<string, Value>, meta: map<string, Value>)
    : (r: Result<Template, TemplateError>)
    ensures r.Err? ==> r.error.CompileError? && r.error.name == name
    ensures r.Ok? ==> r.value.body.name == name && r.value.params == params && r.value.meta == CompileMeta(c, name, meta)
    ensures r.Ok? ==> BlockNamed(r.value.body, name)
  {
    var p := ParseSegs(c, h, Tokens(text), 0, TopLevel, name, []);
    if p.res.Err? then Err(p.res.error.err)
    else Ok(Template(Block(p.res.value.segs, name), params, CompileMeta(c, name, meta)))
  }

  // ---------------------------------------------------------------------
  // The parser object

  /** `Parser`: the registered macros and escape functions, and the run
      state of the compile in progress (`self.run`): the token list, the
      position of the shared token iterator, and the template name. */
  class Parser {
    const macros: seq<Macro>
    const escapeFuncs: map<string, Value>
    var tokens: seq<Token>
    var pos: nat
    var name: string

    constructor (macros: seq<Macro>, escapeFuncs: map<string, Value>)
      ensures this.macros == macros && this.escapeFuncs == escapeFuncs
      ensures tokens == [] && pos == 0 && name == ""
    {
      this.macros := macros;
      this.escapeFuncs := escapeFuncs;
      tokens := [];
      pos := 0;
      name := "";
    }

    function Conf(): Config {
      Config(macros, escapeFuncs)
    }

    /** `compile`: the template the specification builds; the run state
        holds the tokens of the text, the name, and the position the parse
        stopped at. */
    method Compile(h: Host, templateStr: string, name: string, params: map<string, Value>, meta: map<string, Value>)
      returns (r: Result<Template, TemplateError>)
      modifies this
      ensures r == Compiled(Conf(), h, templateStr, name, params, meta)
      ensures tokens == Tokens(templateStr) && this.name == name
      ensures pos == ParseSegs(Conf(), h, tokens, 0, TopLevel, name, []).pos
    {
      var ext := Ext(name);
      var defaultMeta := map["__name__" := StrV(name), "__escape__" := Get(escapeFuncs, ext)] + meta;
      var lexer := new Lexer(templateStr);
      var toks := lexer.Tokenize();
      tokens := toks;
      pos := 0;
      this.name := name;
      var segs := ParseAllSegments(h);
      if segs.Err? {
        r := Err(segs.error.err);
      } else {
        r := Ok(Template(Block(segs.value.segs, name), params, defaultMeta));
      }
    }

    /** `parse_all_segments`. */
    method ParseAllSegments(h: Host) returns (r: Result<Parsed, Failure>)
      requires pos <= |tokens|
      modifies this`pos
      ensures var s := ParseSegs(Conf(), h, tokens, old(pos), TopLevel, name, []); r == s.res && pos == s.pos
      decreases |tokens| - pos, 1
    {
      r := ParseTemplateSegment(h, TopLevel);
    }

    /** `parse_block` for `if` (`rule == InIf`) or `for` (`rule == InFor`). */
    method ParseBlock(h: Host, rule: Rule) returns (r: Result<Parsed, Failure>)
      requires pos <= |tokens| && rule != TopLevel
      modifies this`pos
      ensures var s := ParseSegs(Conf(), h, tokens, old(pos), rule, name, []); r == s.res && pos == s.pos
      decreases |tokens| - pos, 1
    {
      r := ParseTemplateSegment(h, rule);
    }

    /** `parse_template_segment`: the loop over the shared token iterator,
        collecting segments until a tag no macro claims or the end. */
    method ParseTemplateSegment(h: Host, rule: Rule) returns (r: Result<Parsed, Failure>)
      requires pos <= |tokens|
      modifies this`pos
      ensures var s := ParseSegs(Conf(), h, tokens, old(pos), rule, name, []); r == s.res && pos == s.pos
      decreases |tokens| - pos, 0
    {
      ghost var p0 := pos;
      var segments: seq<LSeg> := [];
      while pos < |tokens|
        invariant p0 <= pos <= |tokens|
        invariant ParseSegs(Conf(), h, tokens, p0, rule, name, []) == ParseSegs(Conf(), h, tokens, pos, rule, name, segments)
        decreases |tokens| - pos
      {
        var t := tokens[pos];
        pos := pos + 1;
        if t.kind == StrToken {
          segments := segments + [LSeg(t.line, StrSeg(t.content))];
        } else if t.kind == VarToken {
          if !h.compiles(t.content) {
            return Err(Raised(CompileError(BadExpression(t.content), name, t.line)));
          }
          segments := segments + [LSeg(t.line, VarSeg(t.content))];
        } else {
          var seg := TryMacros(h, t.content);
          if seg.Err? {
            return Err(Wrap(seg.error, name, t.line));
          }
          if seg.value.None? {
            var e := EndHandler(rule, Some(t.content), segments, name);
            if e.Err? {
              return Err(Wrap(e.error, name, t.line));
            }
            return e;
          }
          segments := segments + [LSeg(t.line, seg.value.value)];
        }
      }
      r := EndHandler(rule, None, segments, name);
    }

    /** The loop over `self._macros`: the first macro that returns a
        segment wins. */
    method TryMacros(h: Host, content: string) returns (r: Result<Option<Segment>, Failure>)
      requires pos <= |tokens|
      modifies this`pos
      ensures var s := FirstMacro(Conf(), h, tokens, old(pos), macros, content, name); r == s.res && pos == s.pos
      decreases |tokens| - pos, 4
    {
      var k := 0;
      while k < |macros|
        invariant 0 <= k <= |macros| && pos == old(pos)
        invariant FirstMacro(Conf(), h, tokens, pos, macros, content, name)
               == FirstMacro(Conf(), h, tokens, pos, macros[k..], content, name)
      {
        assert macros[k..][1..] == macros[k + 1..];
        var seg := ApplyMacro(h, macros[k], content);
        if seg.Err? || seg.value.Some? {
          return seg;
        }
        k := k + 1;
      }
      return Ok(None);
    }

    /** A macro wrapped by `token_regex_check`: None unless its pattern
        matches, else the macro body run on the groups. */
    method ApplyMacro(h: Host, m: Macro, content: string) returns (r: Result<Option<Segment>, Failure>)
      requires pos <= |tokens|
      modifies this`pos
      ensures MacroMatch(m, content).None? ==> r == Ok(None) && pos == old(pos)
      ensures MacroMatch(m, content).Some? ==>
                var s := RunMacro(Conf(), h, tokens, old(pos), MacroMatch(m, content).value, name); r == s.res && pos == s.pos
      decreases |tokens| - pos, 3
    {
      var groups := MacroMatch(m, content);
      if groups.None? {
        return Ok(None);
      }
      match groups.value
      case IfArgs(e) => r := IfMacro(h, e);
      case ForArgs(n, v) => r := ForMacro(h, n, v);
      case IncludeArgs(e) => r := IncludeMacro(h, e);
    }

    /** `if_macro`: parse clause bodies until `endif`, compiling each
        clause's expression after its body. */
    method IfMacro(h: Host, expression: string) returns (r: Result<Option<Segment>, Failure>)
      requires pos <= |tokens|
      modifies this`pos
      ensures var s := IfLoop(Conf(), h, tokens, old(pos), expression, [], false, None, name); r == s.res && pos == s.pos
      decreases |tokens| - pos, 2
    {
      ghost var p0 := pos;
      var clauses: seq<Clause> := [];
      var elseTag := false;
      var elseBlock: Option<Block> := None;
      var expr := expression;
      while true
        invariant p0 <= pos <= |tokens|
        invariant IfLoop(Conf(), h, tokens, p0, expression, [], false, None, name)
               == IfLoop(Conf(), h, tokens, pos, expr, clauses, elseTag, elseBlock, name)
        decreases |tokens| - pos
      {
        var b := ParseBlock(h, InIf);
        if b.Err? {
          return Err(b.error);
        }
        var blk := b.value.block;
        if elseTag {
          elseBlock := Some(blk);
        } else {
          if !h.compiles(expr) {
            return Err(Raw(BadExpression(expr)));
          }
          clauses := clauses + [Clause(expr, blk)];
        }
        match b.value.tag
        case Elif(e2) =>
          if elseTag {
            return Err(Raw(ElifAfterElse));
          }
          expr := e2;
        case Else =>
          if elseTag {
            return Err(Raw(DoubleElse));
          }
          elseTag := true;
        case Endif =>
          return Ok(Some(IfSeg(clauses, elseBlock)));
      }
    }

    /** `for_macro`: parse the body up to `endfor`, then compile the
        iterable. */
    method ForMacro(h: Host, n: string, variable: string) returns (r: Result<Option<Segment>, Failure>)
      requires pos <= |tokens|
      modifies this`pos
      ensures var s := RunMacro(Conf(), h, tokens, old(pos), ForArgs(n, variable), name); r == s.res && pos == s.pos
      decreases |tokens| - pos, 2
    {
      var b := ParseBlock(h, InFor);
      if b.Err? {
        return Err(b.error);
      }
      if !h.compiles(variable) {
        return Err(Raw(BadExpression(variable)));
      }
      return Ok(Some(ForSeg(NameSetter(n), variable, b.value.block)));
    }

    /** `include_macro`: compile the target expression. */
    method IncludeMacro(h: Host, expression: string) returns (r: Result<Option<Segment>, Failure>)
      requires pos <= |tokens|
      modifies this`pos
      ensures var s := RunMacro(Conf(), h, tokens, old(pos), IncludeArgs(expression), name); r == s.res && pos == s.pos
      decreases |tokens| - pos, 2
    {
      if !h.compiles(expression) {
        return Err(Raw(BadExpression(expression)));
      }
      return Ok(Some(IncludeSeg(expression)));
    }
  }
}
