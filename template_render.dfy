/** Rendering and loading in src/typhoon/template.py: the segment functions
    (`_string_segment`, `_var_segment`, `if_block`, `for_block`,
    `include_block`), `name_setter`'s setters, `get_template`,
    `TemplateBlock.render_value_in_context`, `Template.render`,
    `render_in_sub_context`, `MemorySource` and `Loader.load`.

    A render reads and writes three pieces of state: the params dict of
    the current context (for loops bind names in it), the output buffer
    (shared by every context of one render) and the loader's cache (an
    include by name may load and store a template). `RState` holds them;
    each function returns the state it leaves and the exception, if any,
    that ends it. Every include consumes one unit of `fuel`, the bound
    standing for Python's recursion limit. */
module TemplateRender {
  import opened Wrappers
  import opened Text
  import opened TemplateAst
  import opened TemplateParser
  import opened HtmlEscape

  /** The host interpreter, the loader's sources (`MemorySource` maps, in
      list order) and its parser. A template whose meta holds `LoaderV`
      loads through this loader. */
  datatype Env = Env(h: Host, sources: seq<map<string, string>>, conf: Config)

  datatype RState = RState(params: map<string, Value>, buffer: seq<string>, cache: map<string, Template>)

  datatype Outcome = Outcome(st: RState, err: Option<Failure>)

  /** `t` is what loading `n` from the sources compiles to. */
  predicate Loadable(env: Env, n: string, t: Template) {
    FirstSource(env.sources, n).Some? && LoaderCompile(env, FirstSource(env.sources, n).value, n, map[], map[]) == Ok(t)
  }

  /** The cache holds only templates compiled from the sources. */
  predicate Coherent(env: Env, cache: map<string, Template>) {
    forall n :: n in cache ==> Loadable(env, n, cache[n])
  }

  /** `b` keeps every entry of `a`. */
  predicate Extends(a: map<string, Template>, b: map<string, Template>) {
    forall n :: n in a ==> n in b && b[n] == a[n]
  }

  /** What a render may do to the state: append to the buffer, add to the
      cache, and keep the cache coherent. */
  predicate Grows(env: Env, a: RState, b: RState) {
    a.buffer <= b.buffer && Extends(a.cache, b.cache) && (Coherent(env, a.cache) ==> Coherent(env, b.cache))
  }

  /** The `except` clauses of `render_value_in_context`. A render error
      passes unchanged; any other exception `e` becomes a render error
      carrying `str(e)`, the block's name and the segment's line. For a
      compile error `str(e)` itself fails: `TemplateError.__str__` reads
      `template_name`, which the constructor never sets (it sets
      `tempate_name`), so an AttributeError leaves the handler instead. */
  function RenderWrap(f: Failure, name: string, line: nat): (r: Failure)
    ensures r.Raised? ==> r.err.RenderError?
    ensures r.Raw? ==> r.why == Unprintable
    ensures f.Raw? ==> r == Raised(RenderError(f.why, name, line))
    ensures f.Raised? && f.err.RenderError? ==> r == f
    ensures f.Raised? && f.err.CompileError? ==> r == Raw(Unprintable)
  {
    match f
    case Raised(RenderError(_, _, _)) => f
    case Raised(CompileError(_, _, _)) => Raw(Unprintable)
    case Raw(w) => Raised(RenderError(w, name, line))
  }

  /** `eval(expression, context.meta, context.params)`. */
  function Evaluate(env: Env, expr: string, meta: map<string, Value>, params: map<string, Value>): Result<Value, Failure> {
    match env.h.eval(expr, meta, params)
    case Ok(v) => Ok(v)
    case Err(m) => Err(Raw(EvalError(m)))
  }

  /** `if escape: value = escape(value)` in `_var_segment`. */
  function Escape(h: Host, esc: Value, s: string): (r: Result<string, Why>)
    ensures !Truthy(h, esc) ==> r == Ok(s)
    ensures esc == EscapeHtmlV ==> r == Ok(EscapeHtml(s))
  {
    if !Truthy(h, esc) then Ok(s)
    else
      match esc
      case EscapeHtmlV => Ok(EscapeHtml(s))
      case Obj(id) => if h.call(id, s).Ok? then Ok(h.call(id, s).value) else Err(EscapeFailed(h.call(id, s).error))
      case _ => Err(NotCallable)
  }

  /** The unpacking setter from the `k`-th name on: each name takes the
      next value; running out of values, or values left over, is an
      error, and the names bound before it stay bound. */
  function Assign(names: seq<string>, vals: seq<Value>, k: nat, params: map<string, Value>): (r: (map<string, Value>, Option<Why>))
    requires k <= |names| && k <= |vals|
    ensures r.1.None? <==> |vals| == |names|
    ensures r.1.Some? ==> r.1.value == (if |vals| < |names| then NotEnoughValues else TooManyValues(|names|))
    decreases |names| - k
  {
    if k == |names| then (params, if |vals| > |names| then Some(TooManyValues(|names|)) else None)
    else if k >= |vals| then (params, Some(NotEnoughValues))
    else Assign(names, vals, k + 1, params[names[k] := vals[k]])
  }

  /** The setter `name_setter` built, applied to `value`. */
  function Bind(h: Host, setter: Setter, value: Value, params: map<string, Value>): (map<string, Value>, Option<Why>) {
    match setter
    case Single(n) => (params[n := value], None)
    case Unpack(names) =>
      match IterOf(h, value)
      case Err(w) => (params, Some(w))
      case Ok(vals) => Assign(names, vals, 0, params)
  }

  /** The clause loop of `if_block`: the index of the first clause whose
      expression is truthy, None if there is none; an expression that
      fails to evaluate ends the loop. */
  function FirstTruthy(env: Env, cls: seq<Clause>, k: nat, meta: map<string, Value>, params: map<string, Value>)
    : (r: Result<Option<nat>, Failure>)
    requires k <= |cls|
    ensures r.Ok? && r.value.Some? ==>
              k <= r.value.value < |cls|
              && Evaluate(env, cls[r.value.value].cond, meta, params).Ok?
              && Truthy(env.h, Evaluate(env, cls[r.value.value].cond, meta, params).value)
    ensures r.Ok? ==> forall j :: k <= j < (if r.value.Some? then r.value.value else |cls|) ==>
              Evaluate(env, cls[j].cond, meta, params).Ok? && !Truthy(env.h, Evaluate(env, cls[j].cond, meta, params).value)
    ensures r.Err? ==> exists j :: k <= j < |cls| && Evaluate(env, cls[j].cond, meta, params) == Err(r.error)
    decreases |cls| - k
  {
    if k == |cls| then Ok(None)
    else
      match Evaluate(env, cls[k].cond, meta, params)
      case Err(f) => Err(f)
      case Ok(v) => if Truthy(env.h, v) then Ok(Some(k)) else FirstTruthy(env, cls, k + 1, meta, params)
  }

  /** The first source, in list order, that has a text for `n`
      (`MemorySource.load`). */
  function FirstSource(sources: seq<map<string, string>>, n: string): (r: Option<string>)
    ensures r.None? <==> forall i :: 0 <= i < |sources| ==> n !in sources[i]
    ensures r.Some? ==> exists i :: 0 <= i < |sources| && n in sources[i] && r.value == sources[i][n]
                          && forall j :: 0 <= j < i ==> n !in sources[j]
  {
    if sources == [] then None
    else if n in sources[0] then Some(sources[0][n])
    else
      var r := FirstSource(sources[1..], n);
      assert forall i :: 1 <= i < |sources| ==> sources[i] == sources[1..][i - 1];
      r
  }

  /** `Loader.compile`: the parser's compile with `__loader__` set to the
      loader, under the caller's meta. */
  function LoaderCompile(env: Env, text: string, name: string, params: map<string, Value>, meta: map<string, Value>)
    : Result<Template, TemplateError>
  {
    Compiled(env.conf, env.h, text, name, params, map["__loader__" := LoaderV] + meta)
  }

  /** `Loader.load`: the cached template, else the first source's text
      compiled and stored, else TemplateNotFoundError. */
  function Load(env: Env, cache: map<string, Template>, n: string): (r: (Result<Template, Failure>, map<string, Template>))
    ensures n in cache ==> r == (Ok(cache[n]), cache)
    ensures r.0.Ok? ==> n in r.1 && r.1[n] == r.0.value && r.1 == cache[n := r.0.value]
    ensures r.0.Err? ==> r.1 == cache
    ensures Extends(cache, r.1) && (Coherent(env, cache) ==> Coherent(env, r.1))
    ensures r.0.Ok? && Coherent(env, cache) ==> Loadable(env, n, r.0.value)
  {
    if n in cache then (Ok(cache[n]), cache)
    else
      match FirstSource(env.sources, n)
      case None => (Err(Raw(NotFound(n))), cache)
      case Some(text) =>
        match LoaderCompile(env, text, n, map[], map[])
        case Err(e) => (Err(Raised(e)), cache)
        case Ok(t) => (Ok(t), cache[n := t])
  }

  /** `get_template`: a template is used as it is; a string is loaded by
      the `__loader__` of the meta; anything else is a TypeError. */
  function GetTemplate(env: Env, v: Value, meta: map<string, Value>, cache: map<string, Template>)
    : (r: (Result<Template, Failure>, map<string, Template>))
    ensures v.TemplateV? ==> r == (Ok(v.t), cache)
    ensures v.StrV? && !Truthy(env.h, Get(meta, "__loader__")) ==> r == (Err(Raw(CannotLoadByName(v.s))), cache)
    ensures !v.TemplateV? && !v.StrV? ==> r == (Err(Raw(NotATemplate)), cache)
    ensures Extends(cache, r.1) && (Coherent(env, cache) ==> Coherent(env, r.1))
  {
    match v
    case TemplateV(t) => (Ok(t), cache)
    case StrV(n) =>
      var l := Get(meta, "__loader__");
      if !Truthy(env.h, l) then (Err(Raw(CannotLoadByName(n))), cache)
      else if l != LoaderV then (Err(Raw(NoLoadMethod)), cache)
      else Load(env, cache, n)
    case _ => (Err(Raw(NotATemplate)), cache)
  }

  /** `render_value_in_context` from segment `i` on. */
  function RenderFrom(env: Env, blk: Block, i: nat, meta: map<string, Value>, st: RState, fuel: nat): (r: Outcome)
    requires i <= |blk.segments|
    ensures r.err.Some? ==> (r.err.value.Raised? && r.err.value.err.RenderError?) || r.err.value == Raw(Unprintable)
    ensures Grows(env, st, r.st)
    decreases fuel, blk, 0, |blk.segments| - i
  {
    if i == |blk.segments| then Outcome(st, None)
    else
      var o := RenderSeg(env, blk.segments[i].seg, meta, st, fuel);
      if o.err.Some? then Outcome(o.st, Some(RenderWrap(o.err.value, blk.name, blk.segments[i].line)))
      else RenderFrom(env, blk, i + 1, meta, o.st, fuel)
  }

  /** One segment called on the context: the function the compiler chose
      for it. */
  function RenderSeg(env: Env, seg: Segment, meta: map<string, Value>, st: RState, fuel: nat): (r: Outcome)
    ensures seg.IncludeSeg? ==> r.st.params == st.params
    ensures Grows(env, st, r.st)
    decreases fuel, seg, 2, 0
  {
    match seg
    case StrSeg(t) => Outcome(st.(buffer := st.buffer + [t]), None)
    case VarSeg(e) => VarOutcome(env, e, meta, st)
    case IfSeg(_, _) => IfOutcome(env, seg, meta, st, fuel)
    case ForSeg(_, _, _) => ForOutcome(env, seg, meta, st, fuel)
    case IncludeSeg(_) => IncludeOutcome(env, seg, meta, st, fuel)
  }

  /** `_var_segment`: evaluate, `str()`, escape, append. */
  function VarOutcome(env: Env, e: string, meta: map<string, Value>, st: RState): (r: Outcome)
  {
    match Evaluate(env, e, meta, st.params)
    case Err(f) => Outcome(st, Some(f))
    case Ok(v) =>
      match Escape(env.h, Get(meta, "__escape__"), StrOf(env.h, v))
      case Err(w) => Outcome(st, Some(Raw(w)))
      case Ok(out) => Outcome(st.(buffer := st.buffer + [out]), None)
  }

  /** `if_block`: the body of the first truthy clause, else the else
      block, else nothing. */
  function IfOutcome(env: Env, seg: Segment, meta: map<string, Value>, st: RState, fuel: nat): (r: Outcome)
    requires seg.IfSeg?
    ensures Grows(env, st, r.st)
    decreases fuel, seg, 1, 0
  {
    match FirstTruthy(env, seg.clauses, 0, meta, st.params)
    case Err(f) => Outcome(st, Some(f))
    case Ok(Some(k)) => RenderFrom(env, seg.clauses[k].body, 0, meta, st, fuel)
    case Ok(None) => if seg.elseBlock.Some? then RenderFrom(env, seg.elseBlock.value, 0, meta, st, fuel) else Outcome(st, None)
  }

  /** `for_block`: evaluate the iterable, then the loop over its items. */
  function ForOutcome(env: Env, seg: Segment, meta: map<string, Value>, st: RState, fuel: nat): (r: Outcome)
    requires seg.ForSeg?
    ensures Grows(env, st, r.st)
    decreases fuel, seg, 1, 0
  {
    match Evaluate(env, seg.iterExpr, meta, st.params)
    case Err(f) => Outcome(st, Some(f))
    case Ok(v) =>
      match IterOf(env.h, v)
      case Err(w) => Outcome(st, Some(Raw(w)))
      case Ok(items) => RenderItems(env, seg, items, 0, meta, st, fuel)
  }

  /** `include_block`: evaluate, get the template, render it in a
      sub-context, and give the context its own params back. */
  function IncludeOutcome(env: Env, seg: Segment, meta: map<string, Value>, st: RState, fuel: nat): (r: Outcome)
    requires seg.IncludeSeg?
    ensures r.st.params == st.params
    ensures Grows(env, st, r.st)
    decreases fuel, seg, 1, 0
  {
    match Evaluate(env, seg.expr, meta, st.params)
    case Err(f) => Outcome(st, Some(f))
    case Ok(v) =>
      var (t, cache) := GetTemplate(env, v, meta, st.cache);
      if t.Err? then Outcome(st.(cache := cache), Some(t.error))
      else if fuel == 0 then Outcome(st.(cache := cache), Some(Raw(RecursionLimit)))
      else
        var sub := SubContextOutcome(env, t.value, meta, RState(st.params, st.buffer, cache), fuel - 1);
        Outcome(sub.st.(params := st.params), sub.err)
  }

  /** `render_in_sub_context` with the empty meta of `include_block`: the
      sub-context's params are the parent's over the template's defaults
      (`render_in_sub_context` and then `sub_context` each merge the
      parent's params in), its meta the template's over the parent's; the
      buffer is shared. */
  function SubContextOutcome(env: Env, t: Template, meta: map<string, Value>, st: RState, fuel: nat): (r: Outcome)
    ensures Grows(env, st, r.st)
    decreases fuel, t, 0, 0
  {
    var subParams := t.params + st.params;
    var subMeta := t.meta + map[];
    RenderFrom(env, t.body, 0, meta + subMeta, st.(params := st.params + subParams), fuel)
  }

  /** The loop of `for_block` from item `j` on: bind, then render the body. */
  function RenderItems(env: Env, seg: Segment, items: seq<Value>, j: nat, meta: map<string, Value>, st: RState, fuel: nat): (r: Outcome)
    requires seg.ForSeg? && j <= |items|
    ensures Grows(env, st, r.st)
    decreases fuel, seg, 0, |items| - j
  {
    if j == |items| then Outcome(st, None)
    else
      var (p, err) := Bind(env.h, seg.setter, items[j], st.params);
      if err.Some? then Outcome(st.(params := p), Some(Raw(err.value)))
      else
        var o := RenderFrom(env, seg.body, 0, meta, st.(params := p), fuel);
        if o.err.Some? then o else RenderItems(env, seg, items, j + 1, meta, o.st, fuel)
  }

  /** `Template.render(self, **params)`: a context with the defaults
      overridden by `params` and an empty buffer; the output is the buffer
      joined. A keyword named `self` is a TypeError of the call itself. */
  function TemplateOutput(env: Env, t: Template, params: map<string, Value>, cache: map<string, Template>, fuel: nat)
    : (r: (Result<string, Failure>, map<string, Template>))
  {
    if "self" in params then (Err(Raw(ArgumentClash)), cache)
    else
      var o := RenderFrom(env, t.body, 0, t.meta, RState(t.params + params, [], cache), fuel);
      (if o.err.Some? then Err(o.err.value) else Ok(Join(o.st.buffer)), o.st.cache)
  }

  /** `Loader.render(self, template_name, **params)`: load, then render; a
      keyword named `self` or `template_name` is a TypeError of the call. */
  function LoaderRender(env: Env, cache: map<string, Template>, n: string, params: map<string, Value>, fuel: nat)
    : (r: (Result<string, Failure>, map<string, Template>))
  {
    if "self" in params || "template_name" in params then (Err(Raw(ArgumentClash)), cache)
    else
      var (t, c1) := Load(env, cache, n);
      if t.Err? then (Err(t.error), c1) else TemplateOutput(env, t.value, params, c1, fuel)
  }

  /** The module-level `render(template, **kwargs)`: compile the text with
      the default parser under the name `__string__`, then render it; a
      keyword named `template` is a TypeError of the call. */
  function ModuleRender(env: Env, text: string, kwargs: map<string, Value>, cache: map<string, Template>, fuel: nat)
    : (r: (Result<string, Failure>, map<string, Template>))
  {
    if "template" in kwargs then (Err(Raw(ArgumentClash)), cache)
    else
      match Compiled(DefaultConfig, env.h, text, "__string__", map[], map[])
      case Err(e) => (Err(Raised(e)), cache)
      case Ok(t) => TemplateOutput(env, t, kwargs, cache, fuel)
  }
}
