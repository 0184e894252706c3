/** The objects of src/typhoon/template.py that change in place while a
    template renders: the output buffer (a list every sub-context shares),
    `Context` (whose params the loop setters rebind), `Loader` (whose cache
    `load` fills), and the rendering functions that act on them. Each
    method is proved to leave the state the functions of `TemplateRender`
    compute. */
module TemplateEngine {
  import opened Wrappers
  import opened Text
  import opened TemplateAst
  import opened TemplateParser
  import opened HtmlEscape
  import opened TemplateRender

  /** The list a render appends its output pieces to. */
  class Buffer {
    var parts: seq<string>

    constructor ()
      ensures parts == []
    {
      parts := [];
    }

    method Append(s: string)
      modifies this
      ensures parts == old(parts) + [s]
    {
      parts := parts + [s];
    }
  }

  /** `Context`: the params (locals of every evaluation), the meta
      (globals) and the buffer. */
  class Context {
    var params: map<string, Value>
    const meta: map<string, Value>
    const buffer: Buffer

    constructor (params: map<string, Value>, meta: map<string, Value>, buffer: Buffer)
      ensures this.params == params && this.meta == meta && this.buffer == buffer
    {
      this.params := params;
      this.meta := meta;
      this.buffer := buffer;
    }

    /** `render`: the pieces joined. */
    function Render(): string
      reads this, buffer
    {
      Join(buffer.parts)
    }

    /** `sub_context`: a new context whose params and meta are this one's
        overridden by the arguments, writing to the same buffer. */
    method SubContext(params: map<string, Value>, meta: map<string, Value>) returns (c: Context)
      ensures fresh(c)
      ensures c.params == this.params + params && c.meta == this.meta + meta && c.buffer == buffer
    {
      var subParams := this.params + params;
      var subMeta := this.meta + meta;
      c := new Context(subParams, subMeta, buffer);
    }

    /** The setter of `name_setter(name)` applied to `value`. */
    method SetName(h: Host, setter: Setter, value: Value) returns (err: Option<Why>)
      modifies this`params
      ensures (params, err) == Bind(h, setter, value, old(params))
    {
      match setter {
        case Single(n) =>
          params := params[n := value];
          err := None;
        case Unpack(names) =>
          var vals := IterOf(h, value);
          if vals.Err? {
            return Some(vals.error);
          }
          var k := 0;
          while k < |names|
            invariant k <= |names| && k <= |vals.value|
            invariant Assign(names, vals.value, 0, old(params)) == Assign(names, vals.value, k, params)
          {
            if k >= |vals.value| {
              return Some(NotEnoughValues);
            }
            params := params[names[k] := vals.value[k]];
            k := k + 1;
          }
          if |vals.value| > |names| {
            return Some(TooManyValues(|names|));
          }
          err := None;
      }
    }
  }

  /** `Loader`: the sources, the parser and the cache of compiled
      templates. */
  class Loader {
    const sources: seq<map<string, string>>
    const parser: Parser
    var cache: map<string, Template>

    constructor (sources: seq<map<string, string>>, parser: Parser)
      ensures this.sources == sources && this.parser == parser && cache == map[]
    {
      this.sources := sources;
      this.parser := parser;
      cache := map[];
    }

    /** The environment the functions of `TemplateRender` describe this
        loader by. */
    function EnvOf(h: Host): Env {
      Env(h, sources, parser.Conf())
    }

    /** `clear_cache`. */
    method ClearCache()
      modifies this
      ensures cache == map[]
    {
      cache := map[];
    }

    /** `compile`. */
    method Compile(h: Host, templateStr: string, name: string, params: map<string, Value>, meta: map<string, Value>)
      returns (r: Result<Template, TemplateError>)
      modifies parser
      ensures r == LoaderCompile(EnvOf(h), templateStr, name, params, meta)
    {
      var defaultMeta := map["__loader__" := LoaderV] + meta;
      r := parser.Compile(h, templateStr, name, params, defaultMeta);
    }

    /** `load`: the cache, then the sources in order. */
    method Load(h: Host, templateName: string) returns (r: Result<Template, Failure>)
      modifies this, parser
      ensures (r, cache) == TemplateRender.Load(EnvOf(h), old(cache), templateName)
    {
      if templateName in cache {
        return Ok(cache[templateName]);
      }
      for i := 0 to |sources|
        invariant FirstSource(sources, templateName) == FirstSource(sources[i..], templateName)
        invariant cache == old(cache)
      {
        assert sources[i..][1..] == sources[i + 1..];
        if templateName in sources[i] {
          var contents := sources[i][templateName];
          var compiled := Compile(h, contents, templateName, map[], map[]);
          if compiled.Err? {
            return Err(Raised(compiled.error));
          }
          cache := cache[templateName := compiled.value];
          return Ok(compiled.value);
        }
      }
      r := Err(Raw(NotFound(templateName)));
    }

    /** `render`: load, then render with the given params. */
    method Render(h: Host, templateName: string, params: map<string, Value>, fuel: nat) returns (r: Result<string, Failure>)
      modifies this, parser
      ensures (r, cache) == LoaderRender(EnvOf(h), old(cache), templateName, params, fuel)
    {
      if "self" in params || "template_name" in params {
        return Err(Raw(ArgumentClash));
      }
      var t := Load(h, templateName);
      if t.Err? {
        return Err(t.error);
      }
      r := RenderTemplate(h, t.value, params, this, fuel);
    }
  }

  /** The state a context and a loader hold together. */
  function StateOf(ctx: Context, loader: Loader): RState
    reads ctx, ctx.buffer, loader
  {
    RState(ctx.params, ctx.buffer.parts, loader.cache)
  }

  /** `TemplateBlock.render_value_in_context`. */
  method RenderValueInContext(h: Host, blk: Block, ctx: Context, loader: Loader, fuel: nat) returns (err: Option<Failure>)
    modifies ctx, ctx.buffer, loader, loader.parser
    ensures var o := RenderFrom(loader.EnvOf(h), blk, 0, ctx.meta, old(StateOf(ctx, loader)), fuel);
            StateOf(ctx, loader) == o.st && err == o.err
    decreases fuel, blk, 0
  {
    var i := 0;
    while i < |blk.segments|
      invariant i <= |blk.segments|
      invariant RenderFrom(loader.EnvOf(h), blk, 0, ctx.meta, old(StateOf(ctx, loader)), fuel)
             == RenderFrom(loader.EnvOf(h), blk, i, ctx.meta, StateOf(ctx, loader), fuel)
    {
      var lineno := blk.segments[i].line;
      var e := RenderSegment(h, blk.segments[i].seg, ctx, loader, fuel);
      if e.Some? {
        return Some(RenderWrap(e.value, blk.name, lineno));
      }
      i := i + 1;
    }
    err := None;
  }

  /** Calling one segment on the context. */
  method RenderSegment(h: Host, seg: Segment, ctx: Context, loader: Loader, fuel: nat) returns (err: Option<Failure>)
    modifies ctx, ctx.buffer, loader, loader.parser
    ensures var o := RenderSeg(loader.EnvOf(h), seg, ctx.meta, old(StateOf(ctx, loader)), fuel);
            StateOf(ctx, loader) == o.st && err == o.err
    decreases fuel, seg, 1
  {
    match seg {
      case StrSeg(value) =>
        ctx.buffer.Append(value);
        err := None;
      case VarSeg(expr) =>
        err := VarSegment(h, expr, ctx, loader);
      case IfSeg(_, _) =>
        err := IfBlock(h, seg, ctx, loader, fuel);
      case ForSeg(_, _, _) =>
        err := ForBlock(h, seg, ctx, loader, fuel);
      case IncludeSeg(expr) =>
        err := IncludeBlock(h, seg, ctx, loader, fuel);
    }
  }

  /** `_var_segment`. */
  method VarSegment(h: Host, expr: string, ctx: Context, loader: Loader) returns (err: Option<Failure>)
    modifies ctx.buffer
    ensures var o := VarOutcome(loader.EnvOf(h), expr, ctx.meta, old(StateOf(ctx, loader)));
            StateOf(ctx, loader) == o.st && err == o.err
  {
    var v := Evaluate(loader.EnvOf(h), expr, ctx.meta, ctx.params);
    if v.Err? {
      return Some(v.error);
    }
    var value := StrOf(h, v.value);
    var escape := Get(ctx.meta, "__escape__");
    if Truthy(h, escape) {
      match escape {
        case EscapeHtmlV =>
          value := EscapeHtml(value);
        case Obj(id) =>
          var called := h.call(id, value);
          if called.Err? {
            return Some(Raw(EscapeFailed(called.error)));
          }
          value := called.value;
        case _ =>
          return Some(Raw(NotCallable));
      }
    }
    ctx.buffer.Append(value);
    err := None;
  }

  /** `if_block`: the first clause whose expression holds renders its
      block, else the else block if there is one. */
  method IfBlock(h: Host, seg: Segment, ctx: Context, loader: Loader, fuel: nat) returns (err: Option<Failure>)
    requires seg.IfSeg?
    modifies ctx, ctx.buffer, loader, loader.parser
    ensures var o := IfOutcome(loader.EnvOf(h), seg, ctx.meta, old(StateOf(ctx, loader)), fuel);
            StateOf(ctx, loader) == o.st && err == o.err
    decreases fuel, seg, 0
  {
    var clauses := seg.clauses;
    var k := 0;
    while k < |clauses|
      invariant k <= |clauses|
      invariant StateOf(ctx, loader) == old(StateOf(ctx, loader))
      invariant FirstTruthy(loader.EnvOf(h), clauses, 0, ctx.meta, ctx.params)
             == FirstTruthy(loader.EnvOf(h), clauses, k, ctx.meta, ctx.params)
    {
      var v := Evaluate(loader.EnvOf(h), clauses[k].cond, ctx.meta, ctx.params);
      if v.Err? {
        return Some(v.error);
      }
      if Truthy(h, v.value) {
        err := RenderValueInContext(h, clauses[k].body, ctx, loader, fuel);
        return;
      }
      k := k + 1;
    }
    if seg.elseBlock.Some? {
      err := RenderValueInContext(h, seg.elseBlock.value, ctx, loader, fuel);
    } else {
      err := None;
    }
  }

  /** `for_block`: for each item, bind the loop names, then render the
      body. */
  method ForBlock(h: Host, seg: Segment, ctx: Context, loader: Loader, fuel: nat) returns (err: Option<Failure>)
    requires seg.ForSeg?
    modifies ctx, ctx.buffer, loader, loader.parser
    ensures var o := ForOutcome(loader.EnvOf(h), seg, ctx.meta, old(StateOf(ctx, loader)), fuel);
            StateOf(ctx, loader) == o.st && err == o.err
    decreases fuel, seg, 0
  {
    var v := Evaluate(loader.EnvOf(h), seg.iterExpr, ctx.meta, ctx.params);
    if v.Err? {
      return Some(v.error);
    }
    var items := IterOf(h, v.value);
    if items.Err? {
      return Some(Raw(items.error));
    }
    ghost var s0 := StateOf(ctx, loader);
    var j := 0;
    while j < |items.value|
      invariant j <= |items.value|
      invariant RenderItems(loader.EnvOf(h), seg, items.value, 0, ctx.meta, s0, fuel)
             == RenderItems(loader.EnvOf(h), seg, items.value, j, ctx.meta, StateOf(ctx, loader), fuel)
    {
      var bad := ctx.SetName(h, seg.setter, items.value[j]);
      if bad.Some? {
        return Some(Raw(bad.value));
      }
      err := RenderValueInContext(h, seg.body, ctx, loader, fuel);
      if err.Some? {
        return;
      }
      j := j + 1;
    }
    err := None;
  }

  /** `get_template`. */
  method GetTemplateOf(h: Host, v: Value, ctx: Context, loader: Loader) returns (r: Result<Template, Failure>)
    modifies loader, loader.parser
    ensures (r, loader.cache) == GetTemplate(loader.EnvOf(h), v, ctx.meta, old(loader.cache))
  {
    match v {
      case TemplateV(t) =>
        r := Ok(t);
      case StrV(n) =>
        var l := Get(ctx.meta, "__loader__");
        if !Truthy(h, l) {
          r := Err(Raw(CannotLoadByName(n)));
        } else if l != LoaderV {
          r := Err(Raw(NoLoadMethod));
        } else {
          r := loader.Load(h, n);
        }
      case _ =>
        r := Err(Raw(NotATemplate));
    }
  }

  /** `include_block`: the template renders into the same buffer, in a
      sub-context, so the parent's params are left as they were. */
  method IncludeBlock(h: Host, seg: Segment, ctx: Context, loader: Loader, fuel: nat) returns (err: Option<Failure>)
    requires seg.IncludeSeg?
    modifies ctx.buffer, loader, loader.parser
    ensures var o := IncludeOutcome(loader.EnvOf(h), seg, ctx.meta, old(StateOf(ctx, loader)), fuel);
            StateOf(ctx, loader) == o.st && err == o.err
    decreases fuel, seg, 0
  {
    var v := Evaluate(loader.EnvOf(h), seg.expr, ctx.meta, ctx.params);
    if v.Err? {
      return Some(v.error);
    }
    var t := GetTemplateOf(h, v.value, ctx, loader);
    if t.Err? {
      return Some(t.error);
    }
    if fuel == 0 {
      return Some(Raw(RecursionLimit));
    }
    err := RenderInSubContext(h, t.value, ctx, loader, fuel - 1);
  }

  /** `Template.render_in_sub_context` with the empty meta of
      `include_block`. */
  method RenderInSubContext(h: Host, t: Template, ctx: Context, loader: Loader, fuel: nat) returns (err: Option<Failure>)
    modifies ctx.buffer, loader, loader.parser
    ensures var o := SubContextOutcome(loader.EnvOf(h), t, ctx.meta, old(StateOf(ctx, loader)), fuel);
            ctx.buffer.parts == o.st.buffer && loader.cache == o.st.cache && err == o.err
    decreases fuel, t, 0
  {
    var subParams := t.params + ctx.params;
    var subMeta := t.meta + map[];
    var sub := ctx.SubContext(subParams, subMeta);
    err := RenderValueInContext(h, t.body, sub, loader, fuel);
  }

  /** `Template.render(**params)`. */
  method RenderTemplate(h: Host, t: Template, params: map<string, Value>, loader: Loader, fuel: nat)
    returns (r: Result<string, Failure>)
    modifies loader, loader.parser
    ensures (r, loader.cache) == TemplateOutput(loader.EnvOf(h), t, params, old(loader.cache), fuel)
  {
    if "self" in params {
      return Err(Raw(ArgumentClash));
    }
    var contextParams := t.params + params;
    var buffer := new Buffer();
    var context := new Context(contextParams, t.meta, buffer);
    var e := RenderValueInContext(h, t.body, context, loader, fuel);
    if e.Some? {
      return Err(e.value);
    }
    r := Ok(context.Render());
  }

  /** The module-level `render`: `default_parser.compile`, then render.
      Templates reached from `kwargs` load through `loader`. */
  method Render(h: Host, defaultParser: Parser, template: string, kwargs: map<string, Value>, loader: Loader, fuel: nat)
    returns (r: Result<string, Failure>)
    requires defaultParser.Conf() == DefaultConfig
    modifies defaultParser, loader, loader.parser
    ensures (r, loader.cache) == ModuleRender(loader.EnvOf(h), template, kwargs, old(loader.cache), fuel)
  {
    if "template" in kwargs {
      return Err(Raw(ArgumentClash));
    }
    var compiled := defaultParser.Compile(h, template, "__string__", map[], map[]);
    if compiled.Err? {
      return Err(Raised(compiled.error));
    }
    r := RenderTemplate(h, compiled.value, kwargs, loader, fuel);
  }
}
