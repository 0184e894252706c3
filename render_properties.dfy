/** Properties of rendering and loading in src/typhoon/template.py: which
    `if` clause renders, how loop names are bound, what an include sees and
    leaves behind, when output is escaped, what the loader's cache returns,
    and whole templates rendered end to end. */
module RenderProperties {
  import opened Wrappers
  import opened Text
  import opened TemplateLexer
  import opened TemplateAst
  import opened TemplateParser
  import opened HtmlEscape
  import opened TemplateRender
  import opened ParserProperties

  // ---------------------------------------------------------------------
  // one step of a block

  /** A segment that succeeds hands its state on to the next one. */
  lemma RenderFromStep(env: Env, blk: Block, i: nat, meta: map<string, Value>, st: RState, fuel: nat, s1: RState)
    requires i < |blk.segments|
    requires RenderSeg(env, blk.segments[i].seg, meta, st, fuel) == Outcome(s1, None)
    ensures RenderFrom(env, blk, i, meta, st, fuel) == RenderFrom(env, blk, i + 1, meta, s1, fuel)
  {
  }

  /** A block of one segment that succeeds leaves that segment's state. */
  lemma RenderOne(env: Env, ls: LSeg, bname: string, meta: map<string, Value>, st: RState, fuel: nat, s1: RState)
    requires RenderSeg(env, ls.seg, meta, st, fuel) == Outcome(s1, None)
    ensures RenderFrom(env, Block([ls], bname), 0, meta, st, fuel) == Outcome(s1, None)
  {
    RenderFromStep(env, Block([ls], bname), 0, meta, st, fuel, s1);
  }

  // ---------------------------------------------------------------------
  // if

  /** The clause loop stops at the first truthy clause. */
  lemma {:induction false} FirstTruthyAt(env: Env, cls: seq<Clause>, i: nat, meta: map<string, Value>, params: map<string, Value>, k: nat)
    requires i <= k < |cls|
    requires forall j :: i <= j < k ==> Evaluate(env, cls[j].cond, meta, params).Ok? && !Truthy(env.h, Evaluate(env, cls[j].cond, meta, params).value)
    requires Evaluate(env, cls[k].cond, meta, params).Ok? && Truthy(env.h, Evaluate(env, cls[k].cond, meta, params).value)
    ensures FirstTruthy(env, cls, i, meta, params) == Ok(Some(k))
    decreases k - i
  {
    if i < k {
      FirstTruthyAt(env, cls, i + 1, meta, params, k);
    }
  }

  /** With every clause false the loop finds nothing. */
  lemma {:induction false} FirstTruthyNone(env: Env, cls: seq<Clause>, i: nat, meta: map<string, Value>, params: map<string, Value>)
    requires i <= |cls|
    requires forall j :: i <= j < |cls| ==> Evaluate(env, cls[j].cond, meta, params).Ok? && !Truthy(env.h, Evaluate(env, cls[j].cond, meta, params).value)
    ensures FirstTruthy(env, cls, i, meta, params) == Ok(None)
    decreases |cls| - i
  {
    if i < |cls| {
      FirstTruthyNone(env, cls, i + 1, meta, params);
    }
  }

  /** Only the body of the first truthy clause renders. */
  lemma IfRendersFirstTruthy(env: Env, cls: seq<Clause>, els: Option<Block>, meta: map<string, Value>, st: RState, fuel: nat, k: nat)
    requires k < |cls|
    requires forall j :: 0 <= j < k ==> Evaluate(env, cls[j].cond, meta, st.params).Ok? && !Truthy(env.h, Evaluate(env, cls[j].cond, meta, st.params).value)
    requires Evaluate(env, cls[k].cond, meta, st.params).Ok? && Truthy(env.h, Evaluate(env, cls[k].cond, meta, st.params).value)
    ensures RenderSeg(env, IfSeg(cls, els), meta, st, fuel) == RenderFrom(env, cls[k].body, 0, meta, st, fuel)
  {
    FirstTruthyAt(env, cls, 0, meta, st.params, k);
  }

  /** With no clause true the else body renders, or nothing at all. */
  lemma IfFallsThrough(env: Env, cls: seq<Clause>, els: Option<Block>, meta: map<string, Value>, st: RState, fuel: nat)
    requires forall j :: 0 <= j < |cls| ==> Evaluate(env, cls[j].cond, meta, st.params).Ok? && !Truthy(env.h, Evaluate(env, cls[j].cond, meta, st.params).value)
    ensures RenderSeg(env, IfSeg(cls, els), meta, st, fuel)
         == if els.Some? then RenderFrom(env, els.value, 0, meta, st, fuel) else Outcome(st, None)
  {
    FirstTruthyNone(env, cls, 0, meta, st.params);
  }

  // ---------------------------------------------------------------------
  // for

  predicate Distinct(names: seq<string>) {
    forall i, j :: 0 <= i < j < |names| ==> names[i] != names[j]
  }

  function Min(a: nat, b: nat): nat {
    if a < b then a else b
  }

  /** Unpacking binds the names, in order, to as many values as there
      are, and touches no other name; on a length mismatch the names bound
      before the error stay bound. */
  lemma {:induction false} AssignBinds(names: seq<string>, vals: seq<Value>, k: nat, params: map<string, Value>)
    requires k <= |names| && k <= |vals| && Distinct(names)
    ensures var p := Assign(names, vals, k, params).0;
            (forall j :: k <= j < Min(|names|, |vals|) ==> names[j] in p && p[names[j]] == vals[j])
            && (forall x :: x in params && (forall j :: k <= j < Min(|names|, |vals|) ==> names[j] != x) ==> x in p && p[x] == params[x])
            && (forall x :: x in p ==> x in params || exists j :: k <= j < Min(|names|, |vals|) && names[j] == x)
    decreases |names| - k
  {
    if k < |names| && k < |vals| {
      var q := params[names[k] := vals[k]];
      AssignBinds(names, vals, k + 1, q);
      var p := Assign(names, vals, k, params).0;
      assert p == Assign(names, vals, k + 1, q).0;
      assert names[k] in p && p[names[k]] == vals[k] by {
        assert forall j :: k + 1 <= j < Min(|names|, |vals|) ==> names[j] != names[k];
      }
    }
  }

  /** A loop over a list whose first item unpacks into the wrong number
      of values stops with the unpacking error before rendering anything,
      leaving the names it could bind bound. */
  lemma ForUnpackMismatch(env: Env, names: seq<string>, e: string, body: Block, meta: map<string, Value>, st: RState, fuel: nat,
                          vals: seq<Value>, rest: seq<Value>)
    requires Evaluate(env, e, meta, st.params) == Ok(ListV([ListV(vals)] + rest))
    requires |vals| != |names|
    ensures var o := ForOutcome(env, ForSeg(Unpack(names), e, body), meta, st, fuel);
            o.err == Some(Raw(if |vals| < |names| then NotEnoughValues else TooManyValues(|names|)))
            && o.st == st.(params := Assign(names, vals, 0, st.params).0)
  {
    var seg := ForSeg(Unpack(names), e, body);
    var items := [ListV(vals)] + rest;
    assert items[0] == ListV(vals);
    var (p, err) := Assign(names, vals, 0, st.params);
    assert Bind(env.h, Unpack(names), items[0], st.params) == (p, err);
    assert RenderItems(env, seg, items, 0, meta, st, fuel) == Outcome(st.(params := p), Some(Raw(err.value)));
  }

  /** The `str()` of each value. */
  function StrsOf(h: Host, vs: seq<Value>): (r: seq<string>)
    ensures |r| == |vs| && forall k :: 0 <= k < |vs| ==> r[k] == StrOf(h, vs[k])
  {
    if vs == [] then [] else [StrOf(h, vs[0])] + StrsOf(h, vs[1..])
  }

  /** The body `{{ n }}` with `n` bound to `item` appends `str(item)`. */
  lemma VarBodyRenders(env: Env, n: string, line: nat, bname: string, meta: map<string, Value>, st: RState, fuel: nat, item: Value)
    requires Evaluate(env, n, meta, st.params[n := item]) == Ok(item)
    requires !Truthy(env.h, Get(meta, "__escape__"))
    ensures RenderFrom(env, Block([LSeg(line, VarSeg(n))], bname), 0, meta, st.(params := st.params[n := item]), fuel)
         == Outcome(RState(st.params[n := item], st.buffer + [StrOf(env.h, item)], st.cache), None)
  {
    var p := st.params[n := item];
    assert RenderSeg(env, VarSeg(n), meta, st.(params := p), fuel)
        == Outcome(RState(p, st.buffer + [StrOf(env.h, item)], st.cache), None);
    RenderOne(env, LSeg(line, VarSeg(n)), bname, meta, st.(params := p), fuel, RState(p, st.buffer + [StrOf(env.h, item)], st.cache));
  }

  /** One pass of the loop: bind `n`, render the body, go on. */
  lemma ForStep(env: Env, seg: Segment, items: seq<Value>, j: nat, meta: map<string, Value>, st: RState, fuel: nat, s1: RState)
    requires seg.ForSeg? && seg.setter.Single? && j < |items|
    requires RenderFrom(env, seg.body, 0, meta, st.(params := st.params[seg.setter.name := items[j]]), fuel) == Outcome(s1, None)
    ensures RenderItems(env, seg, items, j, meta, st, fuel) == RenderItems(env, seg, items, j + 1, meta, s1, fuel)
  {
  }

  /** `{% for n in xs %}{{ n }}{% endfor %}`, with `n` evaluating to its
      binding and no escaping: the body renders once per item, in order,
      and the last item stays bound to `n` after the loop. */
  lemma {:induction false} ForRendersEachItem(env: Env, n: string, e: string, line: nat, bname: string, items: seq<Value>, j: nat,
                                              meta: map<string, Value>, st: RState, fuel: nat)
    requires j <= |items|
    requires forall p: map<string, Value> :: n in p ==> Evaluate(env, n, meta, p) == Ok(p[n])
    requires !Truthy(env.h, Get(meta, "__escape__"))
    ensures RenderItems(env, ForSeg(Single(n), e, Block([LSeg(line, VarSeg(n))], bname)), items, j, meta, st, fuel)
         == Outcome(RState(if j < |items| then st.params[n := items[|items| - 1]] else st.params,
                           st.buffer + StrsOf(env.h, items[j..]), st.cache), None)
    decreases |items| - j
  {
    var seg := ForSeg(Single(n), e, Block([LSeg(line, VarSeg(n))], bname));
    if j == |items| {
      assert items[j..] == [];
      assert RState(st.params, st.buffer + [], st.cache) == st;
    } else {
      var p := st.params[n := items[j]];
      var s1 := RState(p, st.buffer + [StrOf(env.h, items[j])], st.cache);
      assert Evaluate(env, n, meta, p) == Ok(items[j]);
      VarBodyRenders(env, n, line, bname, meta, st, fuel, items[j]);
      ForStep(env, seg, items, j, meta, st, fuel, s1);
      ForRendersEachItem(env, n, e, line, bname, items, j + 1, meta, s1, fuel);
      ForParamsStep(st.params, n, items, j);
      ForBufferStep(env.h, st.buffer, items, j);
    }
  }

  /** The binding after item `j` and the rest of the loop is the last item. */
  lemma ForParamsStep(p: map<string, Value>, n: string, items: seq<Value>, j: nat)
    requires j < |items|
    ensures (if j + 1 < |items| then p[n := items[j]][n := items[|items| - 1]] else p[n := items[j]]) == p[n := items[|items| - 1]]
  {
    if j + 1 < |items| {
      assert p[n := items[j]][n := items[|items| - 1]] == p[n := items[|items| - 1]];
    }
  }

  /** The output of item `j` followed by that of the rest of the loop. */
  lemma ForBufferStep(h: Host, b: seq<string>, items: seq<Value>, j: nat)
    requires j < |items|
    ensures (b + [StrOf(h, items[j])]) + StrsOf(h, items[j + 1..]) == b + StrsOf(h, items[j..])
  {
    assert items[j..][1..] == items[j + 1..];
    assert StrsOf(h, items[j..]) == [StrOf(h, items[j])] + StrsOf(h, items[j + 1..]);
  }

  // ---------------------------------------------------------------------
  // include

  /** An include of a template renders its body into the same buffer, with
      the template's defaults overridden by the parent's params and the
      parent's meta overridden by the template's, and then gives the
      parent its own params back. */
  lemma IncludeOfTemplate(env: Env, e: string, t: Template, meta: map<string, Value>, st: RState, f: nat)
    requires Evaluate(env, e, meta, st.params) == Ok(TemplateV(t))
    ensures var sub := RenderFrom(env, t.body, 0, meta + t.meta, RState(t.params + st.params, st.buffer, st.cache), f);
            IncludeOutcome(env, IncludeSeg(e), meta, st, f + 1) == Outcome(sub.st.(params := st.params), sub.err)
  {
    IncludeGot(env, e, TemplateV(t), t, st.cache, meta, st, f);
  }

  /** An include whose value yields template `t` (and leaves `cache`),
      with fuel left for the included template's body. */
  lemma IncludeGot(env: Env, e: string, v: Value, t: Template, cache: map<string, Template>, meta: map<string, Value>, st: RState, f: nat)
    requires Evaluate(env, e, meta, st.params) == Ok(v) && GetTemplate(env, v, meta, st.cache) == (Ok(t), cache)
    ensures var sub := RenderFrom(env, t.body, 0, meta + t.meta, RState(t.params + st.params, st.buffer, cache), f);
            IncludeOutcome(env, IncludeSeg(e), meta, st, f + 1) == Outcome(sub.st.(params := st.params), sub.err)
  {
    IncludeUnfolds(env, e, v, t, cache, meta, st, f);
    SubContextRenders(env, t, meta, st.params, st.buffer, cache, f);
  }

  /** The include's own step: get the template, render in a sub-context,
      restore the params. */
  lemma IncludeUnfolds(env: Env, e: string, v: Value, t: Template, cache: map<string, Template>, meta: map<string, Value>, st: RState, f: nat)
    requires Evaluate(env, e, meta, st.params) == Ok(v) && GetTemplate(env, v, meta, st.cache) == (Ok(t), cache)
    ensures var sub := SubContextOutcome(env, t, meta, RState(st.params, st.buffer, cache), f);
            IncludeOutcome(env, IncludeSeg(e), meta, st, f + 1) == Outcome(sub.st.(params := st.params), sub.err)
  {
  }

  /** The sub-context of an include: the parent's params over the
      template's defaults, the template's meta over the parent's. */
  lemma SubContextRenders(env: Env, t: Template, meta: map<string, Value>, p: map<string, Value>, b: seq<string>,
                          cache: map<string, Template>, fuel: nat)
    ensures SubContextOutcome(env, t, meta, RState(p, b, cache), fuel)
         == RenderFrom(env, t.body, 0, meta + t.meta, RState(t.params + p, b, cache), fuel)
  {
    assert p + (t.params + p) == t.params + p;
    assert t.meta + map[] == t.meta;
  }

  /** An include by name loads through the loader of the meta; a failed
      load is the include's exception. */
  lemma IncludeByName(env: Env, e: string, n: string, meta: map<string, Value>, st: RState, fuel: nat)
    requires Evaluate(env, e, meta, st.params) == Ok(StrV(n)) && Get(meta, "__loader__") == LoaderV
    ensures var (t, cache) := Load(env, st.cache, n);
            t.Err? ==> IncludeOutcome(env, IncludeSeg(e), meta, st, fuel) == Outcome(st.(cache := cache), Some(t.error))
  {
    assert GetTemplate(env, StrV(n), meta, st.cache) == Load(env, st.cache, n);
  }

  /** A template loaded by name renders as an included template does,
      starting from the cache the load left. */
  lemma IncludeByNameLoads(env: Env, e: string, n: string, meta: map<string, Value>, st: RState, f: nat,
                           t: Template, cache: map<string, Template>)
    requires Evaluate(env, e, meta, st.params) == Ok(StrV(n)) && Get(meta, "__loader__") == LoaderV
    requires Load(env, st.cache, n) == (Ok(t), cache)
    ensures var sub := RenderFrom(env, t.body, 0, meta + t.meta, RState(t.params + st.params, st.buffer, cache), f);
            IncludeOutcome(env, IncludeSeg(e), meta, st, f + 1) == Outcome(sub.st.(params := st.params), sub.err)
  {
    LoadByName(env, n, meta, st.cache);
    IncludeGot(env, e, StrV(n), t, cache, meta, st, f);
  }

  lemma LoadByName(env: Env, n: string, meta: map<string, Value>, cache: map<string, Template>)
    requires Get(meta, "__loader__") == LoaderV
    ensures GetTemplate(env, StrV(n), meta, cache) == Load(env, cache, n)
  {
  }

  /** Without a loader an include by name fails, and so does an include of
      something that is neither a template nor a string; a surrounding
      block reports either as a render error on the include's line. */
  lemma IncludeRejects(env: Env, blk: Block, meta: map<string, Value>, st: RState, fuel: nat, v: Value)
    requires |blk.segments| >= 1 && blk.segments[0].seg.IncludeSeg?
    requires Evaluate(env, blk.segments[0].seg.expr, meta, st.params) == Ok(v)
    requires (v.StrV? && !Truthy(env.h, Get(meta, "__loader__"))) || (!v.StrV? && !v.TemplateV?)
    ensures RenderFrom(env, blk, 0, meta, st, fuel)
         == Outcome(st, Some(Raised(RenderError(if v.StrV? then CannotLoadByName(v.s) else NotATemplate, blk.name, blk.segments[0].line))))
  {
    var seg := blk.segments[0].seg;
    var why := if v.StrV? then CannotLoadByName(v.s) else NotATemplate;
    assert GetTemplate(env, v, meta, st.cache) == (Err(Raw(why)), st.cache);
    assert st.(cache := st.cache) == st;
    assert IncludeOutcome(env, seg, meta, st, fuel) == Outcome(st, Some(Raw(why)));
    assert RenderSeg(env, seg, meta, st, fuel) == Outcome(st, Some(Raw(why)));
  }

  // ---------------------------------------------------------------------
  // escaping

  /** `compile` sets `__escape__` to `escape_html` exactly for names with
      the extension `.html` or `.htm`, unless the caller's meta sets it. */
  lemma EscapeByExtension(name: string, meta: map<string, Value>)
    requires "__escape__" !in meta
    ensures Get(CompileMeta(DefaultConfig, name, meta), "__escape__")
         == if Ext(name) == ".html" || Ext(name) == ".htm" then EscapeHtmlV else NoneV
  {
  }

  lemma LastIndexIs(s: string, c: char, i: nat)
    requires i < |s| && s[i] == c && forall k :: i < k < |s| ==> s[k] != c
    ensures LastIndex(s, c) == i
  {
  }

  lemma LastIndexAbsent(s: string, c: char)
    requires forall k :: 0 <= k < |s| ==> s[k] != c
    ensures LastIndex(s, c) == -1
  {
  }

  /** A few extensions: a leading dot alone is no extension, and only the
      last path component counts. */
  lemma ExtOfHtml()
    ensures Ext("index.html") == ".html"
  {
    LastIndexIs("index.html", '.', 5);
    LastIndexAbsent("index.html", '/');
    assert HasNonDot("index.html", 0, 5) by { assert "index.html"[0] != '.'; }
    assert "index.html"[5..] == ".html";
  }

  lemma ExtOfLastDot()
    ensures Ext("a.b.htm") == ".htm"
  {
    LastIndexIs("a.b.htm", '.', 3);
    LastIndexAbsent("a.b.htm", '/');
    assert HasNonDot("a.b.htm", 0, 3) by { assert "a.b.htm"[0] != '.'; }
    assert "a.b.htm"[3..] == ".htm";
  }

  lemma ExtNone()
    ensures Ext("__string__") == "" && Ext(".html") == "" && Ext("dir.html/page") == ""
  {
    LastIndexAbsent("__string__", '.');
    LastIndexIs(".html", '.', 0);
    LastIndexIs("dir.html/page", '/', 8);
    LastIndexIs("dir.html/page", '.', 3);
  }

  /** Templates compiled by the module-level `render` are not escaped. */
  lemma StringTemplateUnescaped(h: Host)
    ensures !Truthy(h, Get(CompileMeta(DefaultConfig, "__string__", map[]), "__escape__"))
  {
    ExtNone();
  }

  /** An expression segment appends `str(value)`, escaped by
      `escape_html` when that is the `__escape__` of the meta and as it is
      when `__escape__` is unset or falsy. */
  lemma VarSegmentEscaping(env: Env, e: string, meta: map<string, Value>, st: RState, fuel: nat, v: Value)
    requires Evaluate(env, e, meta, st.params) == Ok(v)
    requires Get(meta, "__escape__") == EscapeHtmlV || !Truthy(env.h, Get(meta, "__escape__"))
    ensures RenderSeg(env, VarSeg(e), meta, st, fuel)
         == Outcome(st.(buffer := st.buffer + [if Get(meta, "__escape__") == EscapeHtmlV then EscapeHtml(StrOf(env.h, v)) else StrOf(env.h, v)]), None)
  {
  }

  // ---------------------------------------------------------------------
  // the loader

  /** The first source in list order that has the name supplies the text. */
  lemma {:induction false} FirstSourceIs(sources: seq<map<string, string>>, n: string, i: nat)
    requires i < |sources| && n in sources[i]
    requires forall j :: 0 <= j < i ==> n !in sources[j]
    ensures FirstSource(sources, n) == Some(sources[i][n])
  {
    if i > 0 {
      FirstSourceIs(sources[1..], n, i - 1);
    }
  }

  /** A load that misses the cache compiles the first source's text under
      the loader and stores the result. */
  lemma LoadMiss(env: Env, cache: map<string, Template>, n: string, i: nat)
    requires n !in cache && i < |env.sources| && n in env.sources[i]
    requires forall j :: 0 <= j < i ==> n !in env.sources[j]
    ensures var r := Compiled(env.conf, env.h, env.sources[i][n], n, map[], map["__loader__" := LoaderV]);
            Load(env, cache, n) == if r.Ok? then (Ok(r.value), cache[n := r.value]) else (Err(Raised(r.error)), cache)
  {
    FirstSourceIs(env.sources, n, i);
    assert map["__loader__" := LoaderV] + map[] == map["__loader__" := LoaderV];
  }

  /** A name in no source is TemplateNotFoundError, and nothing is
      cached. */
  lemma LoadNotFound(env: Env, cache: map<string, Template>, n: string)
    requires n !in cache && forall i :: 0 <= i < |env.sources| ==> n !in env.sources[i]
    ensures Load(env, cache, n) == (Err(Raw(NotFound(n))), cache)
  {
  }

  /** A second load of the same name returns the same template without
      touching the cache. */
  lemma LoadTwice(env: Env, cache: map<string, Template>, n: string)
    ensures var (r1, c1) := Load(env, cache, n);
            r1.Ok? ==> Load(env, c1, n) == (r1, c1)
  {
  }

  /** With a cache that holds only what the sources compile to, a hit
      returns what a load after `clear_cache` would compile. */
  lemma CacheIsTransparent(env: Env, cache: map<string, Template>, n: string)
    requires Coherent(env, cache) && n in cache
    ensures Load(env, cache, n).0 == Load(env, map[], n).0
  {
    assert Loadable(env, n, cache[n]);
  }

  // ---------------------------------------------------------------------
  // whole templates

  /** The texts of a list of text segments. */
  function SegTexts(segs: seq<LSeg>): (r: seq<string>)
    requires forall k :: 0 <= k < |segs| ==> segs[k].seg.StrSeg?
    ensures |r| == |segs| && forall k :: 0 <= k < |segs| ==> r[k] == segs[k].seg.text
  {
    if segs == [] then [] else [segs[0].seg.text] + SegTexts(segs[1..])
  }

  lemma SegTextsStep(segs: seq<LSeg>, i: nat)
    requires i < |segs| && forall k :: 0 <= k < |segs| ==> segs[k].seg.StrSeg?
    ensures SegTexts(segs[i..]) == [segs[i].seg.text] + SegTexts(segs[i + 1..])
  {
    assert segs[i..][1..] == segs[i + 1..];
  }

  /** A text segment appends its text. */
  lemma StrSegRenders(env: Env, seg: Segment, meta: map<string, Value>, st: RState, fuel: nat)
    requires seg.StrSeg?
    ensures RenderSeg(env, seg, meta, st, fuel) == Outcome(st.(buffer := st.buffer + [seg.text]), None)
  {
  }

  /** The end of a block leaves the state as it is. */
  lemma RenderFromEnd(env: Env, blk: Block, meta: map<string, Value>, st: RState, fuel: nat)
    ensures RenderFrom(env, blk, |blk.segments|, meta, st, fuel) == Outcome(st, None)
  {
  }

  /** A text segment hands on the state with its text appended. */
  lemma TextStep(env: Env, blk: Block, i: nat, meta: map<string, Value>, st: RState, fuel: nat)
    requires i < |blk.segments| && blk.segments[i].seg.StrSeg?
    ensures RenderFrom(env, blk, i, meta, st, fuel)
         == RenderFrom(env, blk, i + 1, meta, st.(buffer := st.buffer + [blk.segments[i].seg.text]), fuel)
  {
    StrSegRenders(env, blk.segments[i].seg, meta, st, fuel);
    RenderFromStep(env, blk, i, meta, st, fuel, st.(buffer := st.buffer + [blk.segments[i].seg.text]));
  }

  lemma TextsStep(b: seq<string>, segs: seq<LSeg>, i: nat)
    requires i < |segs| && forall k :: 0 <= k < |segs| ==> segs[k].seg.StrSeg?
    ensures (b + [segs[i].seg.text]) + SegTexts(segs[i + 1..]) == b + SegTexts(segs[i..])
  {
    SegTextsStep(segs, i);
  }

  /** A block of text segments appends their texts in order. */
  lemma {:induction false} TextBlockRenders(env: Env, blk: Block, i: nat, meta: map<string, Value>, st: RState, fuel: nat)
    requires i <= |blk.segments| && forall k :: 0 <= k < |blk.segments| ==> blk.segments[k].seg.StrSeg?
    ensures RenderFrom(env, blk, i, meta, st, fuel) == Outcome(st.(buffer := st.buffer + SegTexts(blk.segments[i..])), None)
    decreases |blk.segments| - i
  {
    if i == |blk.segments| {
      RenderFromEnd(env, blk, meta, st, fuel);
      assert blk.segments[i..] == [];
      assert st.(buffer := st.buffer + []) == st;
    } else {
      TextStep(env, blk, i, meta, st, fuel);
      TextBlockRenders(env, blk, i + 1, meta, st.(buffer := st.buffer + [blk.segments[i].seg.text]), fuel);
      TextsStep(st.buffer, blk.segments, i);
    }
  }

  /** A text of text tokens only compiles to their text segments. */
  lemma TextOnlyCompiles(h: Host, text: string)
    requires forall k :: 0 <= k < |Tokens(text)| ==> Tokens(text)[k].kind == StrToken
    ensures Compiled(DefaultConfig, h, text, "__string__", map[], map[])
         == Ok(Template(Block(TextSegments(Tokens(text)), "__string__"), map[], CompileMeta(DefaultConfig, "__string__", map[])))
  {
    var toks := Tokens(text);
    TextTokensAreTextSegments(DefaultConfig, h, toks, 0, "__string__", []);
    assert toks[0..] == toks && [] + TextSegments(toks) == TextSegments(toks);
  }

  /** Rendering a template of text segments only gives their texts
      joined. */
  lemma TextTemplateRenders(env: Env, t: Template, kwargs: map<string, Value>, cache: map<string, Template>, fuel: nat)
    requires forall k :: 0 <= k < |t.body.segments| ==> t.body.segments[k].seg.StrSeg?
    requires "self" !in kwargs
    ensures TemplateOutput(env, t, kwargs, cache, fuel) == (Ok(Join(SegTexts(t.body.segments))), cache)
  {
    var st := RState(t.params + kwargs, [], cache);
    TextBlockRenders(env, t.body, 0, t.meta, st, fuel);
    assert t.body.segments[0..] == t.body.segments;
    assert [] + SegTexts(t.body.segments) == SegTexts(t.body.segments);
  }

  /** The module-level `render` of a text of text tokens only is their
      contents joined. */
  lemma TextOnlyRenders(env: Env, text: string, kwargs: map<string, Value>, cache: map<string, Template>, fuel: nat)
    requires forall k :: 0 <= k < |Tokens(text)| ==> Tokens(text)[k].kind == StrToken
    requires "template" !in kwargs && "self" !in kwargs
    ensures ModuleRender(env, text, kwargs, cache, fuel) == (Ok(Join(SegTexts(TextSegments(Tokens(text))))), cache)
  {
    TextOnlyCompiles(env.h, text);
    var t := Template(Block(TextSegments(Tokens(text)), "__string__"), map[], CompileMeta(DefaultConfig, "__string__", map[]));
    TextTemplateRenders(env, t, kwargs, cache, fuel);
    assert ModuleRender(env, text, kwargs, cache, fuel) == TemplateOutput(env, t, kwargs, cache, fuel);
  }

  /** The module-level `render` of a text with no tag opener is the text. */
  lemma PlainTextRenders(env: Env, text: string, kwargs: map<string, Value>, cache: map<string, Template>, fuel: nat)
    requires NoTagOpener(text)
    requires "template" !in kwargs && "self" !in kwargs
    ensures ModuleRender(env, text, kwargs, cache, fuel) == (Ok(text), cache)
  {
    PlainTextIsOneToken(text);
    TextOnlyRenders(env, text, kwargs, cache, fuel);
    OneTextJoins(Tokens(text), text);
  }

  /** The tokens of a lone (possibly empty) text join back to it. */
  lemma OneTextJoins(toks: seq<Token>, text: string)
    requires toks == if text == "" then [] else [Token(1, StrToken, text)]
    ensures Join(SegTexts(TextSegments(toks))) == text
  {
    if text != "" {
      assert SegTexts(TextSegments(toks)) == [text];
      assert Join([text]) == text + Join([]);
    }
  }

  /** A comment renders nothing: a text followed by a comment renders as
      the text. */
  lemma CommentRendersNothing(env: Env, a: string, c: string, kwargs: map<string, Value>, cache: map<string, Template>, fuel: nat)
    requires '{' !in a && |c| >= 1
    requires forall k :: 1 <= k < |c| - 1 ==> !(c[k] == '#' && c[k + 1] == '}')
    requires "template" !in kwargs && "self" !in kwargs
    ensures ModuleRender(env, a + "{#" + c + "#}", kwargs, cache, fuel) == (Ok(a), cache)
  {
    CommentEmitsNothing(a, c);
    TextOnlyRenders(env, a + "{#" + c + "#}", kwargs, cache, fuel);
    OneTextJoins(Tokens(a + "{#" + c + "#}"), a);
  }

  /** `render("{{ x }}", **kwargs)` is `str()` of the value of `x`,
      unescaped. */
  lemma VariableRenders(env: Env, inner: string, kwargs: map<string, Value>, cache: map<string, Template>, fuel: nat, v: Value)
    requires '}' !in inner && Strip(inner) != "" && env.h.compiles(Strip(inner))
    requires Evaluate(env, Strip(inner), CompileMeta(DefaultConfig, "__string__", map[]), kwargs) == Ok(v)
    requires "template" !in kwargs && "self" !in kwargs
    ensures ModuleRender(env, "{{" + inner + "}}", kwargs, cache, fuel) == (Ok(StrOf(env.h, v)), cache)
  {
    VariableCompiles(env.h, inner);
    VarTemplateRenders(env, Strip(inner), kwargs, cache, fuel, v);
  }

  /** The template of `{{ x }}` renders `str()` of the value of `x`. */
  lemma VarTemplateRenders(env: Env, x: string, kwargs: map<string, Value>, cache: map<string, Template>, fuel: nat, v: Value)
    requires Evaluate(env, x, CompileMeta(DefaultConfig, "__string__", map[]), kwargs) == Ok(v)
    requires "self" !in kwargs
    ensures TemplateOutput(env, Template(Block([LSeg(1, VarSeg(x))], "__string__"), map[], CompileMeta(DefaultConfig, "__string__", map[])),
                           kwargs, cache, fuel)
         == (Ok(StrOf(env.h, v)), cache)
  {
    var meta := CompileMeta(DefaultConfig, "__string__", map[]);
    StringTemplateUnescaped(env.h);
    var st := RState(map[] + kwargs, [], cache);
    assert st.params == kwargs;
    var s1 := st.(buffer := [StrOf(env.h, v)]);
    assert [] + [StrOf(env.h, v)] == [StrOf(env.h, v)];
    assert RenderSeg(env, VarSeg(x), meta, st, fuel) == Outcome(s1, None);
    RenderOne(env, LSeg(1, VarSeg(x)), "__string__", meta, st, fuel, s1);
    assert Join([StrOf(env.h, v)]) == StrOf(env.h, v) by {
      assert Join([StrOf(env.h, v)]) == StrOf(env.h, v) + Join([]);
    }
  }

  /** `{{ x }}` compiles to one expression segment on line 1. */
  lemma VariableCompiles(h: Host, inner: string)
    requires '}' !in inner && Strip(inner) != "" && h.compiles(Strip(inner))
    ensures Compiled(DefaultConfig, h, "{{" + inner + "}}", "__string__", map[], map[])
         == Ok(Template(Block([LSeg(1, VarSeg(Strip(inner)))], "__string__"), map[], CompileMeta(DefaultConfig, "__string__", map[])))
  {
    SingleVariable(inner);
    var x := Strip(inner);
    var toks := [Token(1, VarToken, x)];
    assert [] + [LSeg(1, VarSeg(x))] == [LSeg(1, VarSeg(x))];
    assert ParseSegs(DefaultConfig, h, toks, 0, TopLevel, "__string__", [])
        == Stepped(Ok(Segments([LSeg(1, VarSeg(x))])), 1);
  }

  /** A keyword argument that repeats a named parameter of the call is a
      TypeError before anything is compiled, loaded or rendered: `template`
      for the module-level `render`, `self` for `Template.render`, `self`
      and `template_name` for `Loader.render`. */
  lemma KeywordClashRejected(env: Env, text: string, t: Template, n: string, kwargs: map<string, Value>,
                             cache: map<string, Template>, fuel: nat)
    ensures "template" in kwargs ==> ModuleRender(env, text, kwargs, cache, fuel) == (Err(Raw(ArgumentClash)), cache)
    ensures "self" in kwargs ==> TemplateOutput(env, t, kwargs, cache, fuel) == (Err(Raw(ArgumentClash)), cache)
    ensures "self" in kwargs || "template_name" in kwargs ==> LoaderRender(env, cache, n, kwargs, fuel) == (Err(Raw(ArgumentClash)), cache)
    ensures "self" in kwargs && Compiled(DefaultConfig, env.h, text, "__string__", map[], map[]).Ok? ==>
              ModuleRender(env, text, kwargs, cache, fuel) == (Err(Raw(ArgumentClash)), cache)
  {
  }
}
