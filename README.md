# Typhoon templates and user forms, in Dafny

A model of two parts of the Typhoon web application:

- **The micro template engine** (`src/typhoon/template.py`). It covers:
  - the lexer that cuts a template text into string, variable and block tokens with line numbers;
  - the recursive-descent parser with its `if`, `for` and `include` macros, which compiles the tokens into a tree of segments;
  - the renderer that runs that tree against a context (params, meta and a shared output buffer);
  - HTML escaping;
  - the template loader with its sources and cache;
  - the module-level `render` and `compiler`.
- **The registration and login forms** (`src/form/user.py`). It covers:
  - reading request arguments;
  - the username and e-mail regular expressions;
  - the ordered error checks of `RegisterForm.validate` and `LoginForm.validate`.

## Structure

| module | file | models |
|---|---|---|
| Wrappers | wrappers.dfy | `Option` and `Result` |
| Text | text.dfy | `str.strip`, `str.count`, `str.split` and `str.join` on character sequences |
| TemplateLexer | template_lexer.dfy | `RE_TOKEN` and `Lexer.tokenize`, both as a function and as the `Lexer` class |
| TemplateAst | template_ast.dfy | values, segment trees, errors, and the host interpreter |
| TemplateMacros | template_macros.dfy | the macro and terminator patterns, and `name_setter` |
| TemplateParser | template_parser.dfy | `Parser` and the macro bodies, both as functions and as the `Parser` class |
| HtmlEscape | html_escape.dfy | `escape_html` |
| TemplateRender | template_render.dfy | rendering and loading, as functions of an explicit state |
| TemplateEngine | template_engine.dfy | the in-place objects (`Context`, `Loader`, the buffer) and the rendering procedures over them |
| ParserProperties | parser_properties.dfy | properties of the parser |
| RenderProperties | render_properties.dfy | properties of rendering and loading |
| FormUser | form_user.dfy | `BaseForm`, `RegisterForm`, `LoginForm` |

### How the model is written

- **Functions specify the classes.** Every stateful class is specified by a pure function:
  - `Lexer.Tokenize` by `Generate`;
  - `Parser.Compile` by `Compiled`;
  - `Loader.Load` by `TemplateRender.Load`;
  - the rendering methods by `RenderFrom` and its companions.

  The methods' `ensures` tie the new state to those functions. The lemmas in the two properties modules state what the source promises about them.
- **The Python interpreter is a parameter.** Template expressions are Python expressions that the engine hands to `compile` and `eval`. The model passes the interpreter in as a `Host` value. Its parts are:
  - whether an expression compiles;
  - what it evaluates to;
  - the truthiness of host objects, their `str()`, their iteration, and calling them.

  Values that are None, booleans, integers, strings, lists, templates, the loader or `escape_html` are concrete.
- **Regular expressions are modelled as Python matches them.** That includes:
  - greedy `\s+` and lazy `(.+?)` with backtracking;
  - `DOTALL` or not;
  - `$` also matching just before one final newline.

  So `{% if x\n %}`-style tags are modelled exactly, and so is a user name followed by one `"\n"`.
- **Fuel stands for Python's recursion limit.** Each include consumes one unit, and running out is a render error.

### Where the model differs from common expectations, following the code

- **Comments and line numbers.** A comment `{# … #}` does not advance the line counter. `lineno` grows only by the newlines of the tokens that are emitted, so a multi-line comment shifts every later line number. The model does what the code does (`TemplateLexer.TokensLineNumbers`).
- **Compile errors during rendering.** A `TemplateCompileError` raised while rendering is not passed through as a render error. An example is an included template that fails to compile. `render_value_in_context` calls `str(e)` on it, and `TemplateError.__str__` reads the attribute `template_name`, which the constructor never set (it sets `tempate_name`). The result is an `AttributeError`. The enclosing block then reports that `AttributeError` as a render error on its own line. `TemplateRender.RenderWrap` states this.
- **Empty tags.** A tag holding only whitespace, `{% %}` or `{{ }}`, yields no token at all, because `tokenize` emits a variable or block only when its stripped contents are non-empty. The text on both sides of it is kept (`TemplateLexer.EmptyTagEmitsNothing`).
- **Hyphens in e-mail addresses.** The comment above `RE_EMAIL` says `hello@bla-bla.com` is not supported. The pattern does accept it, because the first domain label may contain `-` (`FormUser.HyphenatedDomainAccepted`). Only later labels reject the hyphen (`FormUser.EmailHyphenInFirstLabel`).
- **Repeated validation.** `validate` appends to `self.errors` and never clears it. Validating the same form twice therefore fails the second time whenever the first failed (`FormUser.RegisterValidationAccumulates`).

## Model

| member | source | states |
|---|---|---|
| TemplateLexer.FindPair | src/typhoon/template.py:79-90 | the first position at or after `from` where a closing delimiter pair occurs, with none before it, and None exactly when the pair occurs nowhere after `from` |
| TemplateLexer.MatchAt | src/typhoon/template.py:79-90 | a match of `RE_TOKEN` at `p` starts at `p`, spans at least four characters, and yields variable and block contents with no whitespace at either end |
| TemplateLexer.MatchShape | src/typhoon/template.py:79-90 | a comment needs at least one character between `{#` and `#}` and keeps it; a variable or block keeps the text between its delimiters with the surrounding whitespace removed |
| TemplateLexer.NextMatch | src/typhoon/template.py:109 | the match `finditer` yields next never starts before the resume position and stays inside the text |
| TemplateLexer.NextMatchIsFirst | src/typhoon/template.py:109 | `finditer`'s next match is the match at the first position from which the pattern matches; there is none exactly when no later position matches |
| TemplateLexer.Lexer.constructor | src/typhoon/template.py:102-105 | a new lexer holds the text, with `index` 0 and `lineno` 1 |
| TemplateLexer.Lexer.YieldMatch | src/typhoon/template.py:110-126 | one pass of the generator yields the string before the match and then a non-empty variable or block, advancing `lineno` by the newlines of each |
| TemplateLexer.Lexer.Tokenize | src/typhoon/template.py:107-130 | running the generator to its end leaves the tokens, `index` and `lineno` of the specification `Generate` |
| TemplateLexer.PiecesPartition | src/typhoon/template.py:107-130 | the gaps between matches and the matches themselves, in order, spell out the text exactly |
| TemplateLexer.GenerateIsEmit | src/typhoon/template.py:107-130 | the generator yields exactly each gap verbatim and each non-empty variable or block, and nothing for a comment |
| TemplateLexer.EmitLines | src/typhoon/template.py:112-124 | every emitted token carries the start line plus the newlines in the contents of the tokens emitted before it |
| TemplateLexer.TokensLineNumbers | src/typhoon/template.py:104-130 | token lines start at 1 and advance only by the newlines of earlier tokens' contents: a comment or the whitespace stripped from a tag adds no line |
| TemplateLexer.TokensAreWellFormed | src/typhoon/template.py:110-130 | every token has non-empty contents, and a variable or block token has no surrounding whitespace |
| TemplateLexer.PlainTextIsOneToken | src/typhoon/template.py:128-130 | a text with no `{#`, `{{` or `{%` is a single string token on line 1, and the empty text is no token |
| TemplateLexer.CommentEmitsNothing | src/typhoon/template.py:81-126 | a comment, even one spanning lines, yields no token; only the text before it is emitted |
| TemplateLexer.EmptyTagEmitsNothing | src/typhoon/template.py:107-126 | a whitespace-only `{% %}` or `{{ }}` between two texts without `{` yields no token; both texts are emitted, the second on the line the first leaves |
| TemplateLexer.SingleVariable | src/typhoon/template.py:84-124 | `{{ x }}` yields one variable token holding `x` stripped, and an all-whitespace variable tag yields nothing |
| Text.Strip | src/typhoon/template.py:267 | the result has no whitespace at either end and is no longer than the input |
| TemplateMacros.MacroMatch | src/typhoon/template.py:299-309 | a macro's pattern that matches a tag yields the groups of that macro's own kind |
| TemplateMacros.NameSetter | src/typhoon/template.py:261-286 | a name containing a comma becomes an unpacking setter of at least two stripped, comma-free names; any other name is bound whole, as written |
| TemplateMacros.StripAll | src/typhoon/template.py:267 | each loop name is the corresponding comma-separated part with whitespace stripped |
| TemplateMacros.MacrosExclusive | src/typhoon/template.py:321-385 | at most one of the `if`, `for` and `include` patterns matches any tag, and a terminator tag matches none of them |
| TemplateMacros.IfAndIncludeCanonical | src/typhoon/template.py:323-382 | `if x` and `include x` hand the whole `x` to their macro |
| TemplateMacros.ForCanonical | src/typhoon/template.py:357-360 | `for n in v`, with a name without whitespace, hands `n` and `v` to the macro |
| TemplateMacros.EndTagsCanonical | src/typhoon/template.py:321-355 | `elif x` gives `x`; `else`, `endif` and `endfor` are recognised; each terminator is refused by the other block's pattern |
| TemplateMacros.LazyEndNoNewline | src/typhoon/template.py:299-300 | with DOTALL, a lazy `(.+?)$` on a text not ending in a newline captures the whole rest of the text |
| TemplateMacros.LazyEndLine | src/typhoon/template.py:321 | without DOTALL, a lazy `(.+?)$` on a single line captures the whole rest of the line |
| TemplateParser.Wrap | src/typhoon/template.py:185-188 | a plain exception becomes a compile error naming the template and the token's line; a template error passes unchanged |
| TemplateParser.EndHandler | src/typhoon/template.py:193-213 | at top level, success exactly for the end of stream or an empty tag, returning the segments; inside a block, the block closes only on a terminator its pattern accepts, else "could not find a corresponding" or "not a recognized tag" |
| TemplateParser.ParseSegs | src/typhoon/template.py:163-212 | the parse only moves forward; a block ends on a terminator of its own kind; every error is a compile error naming the template and the line of a token it read, except that a block body reaching the end of the tokens leaves with its "could not find a corresponding" error still unwrapped, for the enclosing tag to report; every block of the result carries the template name |
| TemplateParser.FirstMacro | src/typhoon/template.py:175-180 | macros are tried in order; if none claims the tag, nothing is consumed; an error names a token that was read |
| TemplateParser.RunMacro | src/typhoon/template.py:323-382 | a macro whose pattern matched always yields a segment or a compile error attributed to a token it read |
| TemplateParser.IfLoop | src/typhoon/template.py:324-345 | for every input: the clause loop yields an `if` segment or a compile error attributed to a token it read; the clauses gathered so far stay first and in order; before `else` the next clause is `expr` with the body parsed next; after `else` the body parsed next is the else block, only `endif` may close it, and `elif` or a second `else` there is the error `ElifAfterElse` or `DoubleElse` |
| TemplateParser.LastIndex | src/typhoon/template.py:151 | the position of the last occurrence of the character, or -1 when there is none |
| TemplateParser.Ext | src/typhoon/template.py:151 | the extension is empty or a dot followed by no dot and no slash, and it is a suffix of the path |
| TemplateParser.Compiled | src/typhoon/template.py:150-161 | a compile error names the template; a compiled template keeps the given params and the meta of `compile`, and every block in it carries the template name |
| TemplateParser.Parser.constructor | src/typhoon/template.py:145-148 | a new parser holds the given macros and escape functions |
| TemplateParser.Parser.Compile | src/typhoon/template.py:150-161 | `compile` returns the template of `Compiled`, with the tokens of the text and its name in the run state |
| TemplateParser.Parser.ParseAllSegments | src/typhoon/template.py:193-199 | the result and the token position of the top-level parse |
| TemplateParser.Parser.ParseBlock | src/typhoon/template.py:201-213 | the result and the token position of a block parse that closes on the block's terminators |
| TemplateParser.Parser.ParseTemplateSegment | src/typhoon/template.py:163-191 | the loop over the shared token iterator ends with the result and the position of `ParseSegs` |
| TemplateParser.Parser.TryMacros | src/typhoon/template.py:175-178 | the loop over the registered macros gives the result and the position of `FirstMacro` |
| TemplateParser.Parser.ApplyMacro | src/typhoon/template.py:299-309 | when the pattern does not match, the result is None and no token is consumed; otherwise the macro body runs on the groups |
| TemplateParser.Parser.IfMacro | src/typhoon/template.py:323-345 | `if_macro` ends with the result and the position of the clause loop `IfLoop` |
| TemplateParser.Parser.ForMacro | src/typhoon/template.py:357-360 | `for_macro` parses the body up to `endfor`, then compiles the iterable |
| TemplateParser.Parser.IncludeMacro | src/typhoon/template.py:380-382 | `include_macro` compiles the target expression without reading a token |
| ParserProperties.FirstMacroWins | src/typhoon/template.py:175-178 | the first macro in order whose pattern matches builds the segment |
| ParserProperties.FirstMacroNone | src/typhoon/template.py:175-180 | a tag no macro claims consumes nothing and yields no segment |
| ParserProperties.UnknownTagRejected | src/typhoon/template.py:194-197 | at top level, a non-empty tag no macro claims is a "not a recognized tag" compile error on that tag's line |
| ParserProperties.DefaultMacrosRejectEmpty | src/typhoon/template.py:385 | none of the default macros claims the empty tag |
| ParserProperties.UnrecognizedEndRejected | src/typhoon/template.py:208-211 | inside an `if` body, a tag that is neither a macro nor a terminator is an error spelling out the tag, reported on its line |
| ParserProperties.IfTagDispatch | src/typhoon/template.py:323-385 | the first default macro claims `if x` with the expression `x` |
| ParserProperties.EndTagNotClaimed | src/typhoon/template.py:321-385 | no default macro claims a terminator tag |
| ParserProperties.IfTagError | src/typhoon/template.py:163-191 | any error of the clause loop that is not yet a template error becomes a compile error on the line of the `if` tag, at any position and nesting |
| ParserProperties.ForTagError | src/typhoon/template.py:163-191 | the same for the body of a `for` and the line of the `for` tag |
| ParserProperties.ForTagDispatch | src/typhoon/template.py:358-360 | `for n in v` is claimed by the `for` macro with the groups `n` and `v`, not by the `if` macro |
| ParserProperties.BodyStep | src/typhoon/template.py:166-173 | a text or compiling expression token inside any block is appended to its segments |
| ParserProperties.BodyRunsToEnd | src/typhoon/template.py:190-207 | a block body that holds only text and expressions up to the end of the tokens is that block's "could not find a corresponding" error, having read every token |
| ParserProperties.UnterminatedIf | src/typhoon/template.py:191-207 | an `if` tag anywhere, followed only by text and expressions, is a "could not find a corresponding endif" compile error on the line of the `if` |
| ParserProperties.UnterminatedFor | src/typhoon/template.py:191-207 | the same for a `for` tag and `endfor`, on the line of the `for` |
| ParserProperties.TextThenEnd | src/typhoon/template.py:204-212 | a body of one text token closed by a terminator is a block of that text, ended by that terminator |
| ParserProperties.EmptyThenEnd | src/typhoon/template.py:204-212 | an empty body closed by a terminator is an empty block ended by that terminator |
| ParserProperties.IfChainShape | src/typhoon/template.py:323-345 | `if a`/`elif b`/`else`/`endif` with text bodies compiles to one `if` segment with two clauses, each holding its own text, and an else block |
| ParserProperties.IfChainLoop | src/typhoon/template.py:328-345 | the clause loop collects the `if` and `elif` clauses in order and keeps the body after `else` as the else block |
| ParserProperties.IfLoopStep | src/typhoon/template.py:328-342 | a body closed by `elif e2` adds the current clause and goes on with `e2`; one closed by `else` adds it and goes on in the `else` state |
| ParserProperties.ElifAfterElseRejected | src/typhoon/template.py:335-337 | in any chain that reaches the `else` state, a body closed by `elif` makes the whole `if` a compile error on the line of the `if` |
| ParserProperties.DoubleElseRejected | src/typhoon/template.py:339-341 | in any chain that reaches the `else` state, a body closed by a second `else` makes the whole `if` a compile error on the line of the `if` |
| ParserProperties.TextTokensAreTextSegments | src/typhoon/template.py:168-184 | text tokens become text segments on their own lines, in order |
| HtmlEscape.EscapeHtmlAppend | src/typhoon/template.py:133-135 | escaping distributes over concatenation |
| HtmlEscape.EscapeHtmlIsPerChar | src/typhoon/template.py:133-135 | the four `replace` passes escape each character on its own, because `&` is replaced first |
| HtmlEscape.UnescapeEscapeHtml | src/typhoon/template.py:133-135 | escaping loses nothing: decoding the four entities gives the original text back |
| HtmlEscape.EscapeHtmlIsSafe | src/typhoon/template.py:133-135 | the escaped text contains no `<`, `>` or double quote |
| HtmlEscape.EscapeHtmlPlain | src/typhoon/template.py:133-135 | a text without `&`, `<`, `>` or a double quote is left as it is |
| TemplateRender.RenderWrap | src/typhoon/template.py:25-30 | a render error passes through; a plain exception becomes a render error on the segment's line; a compile error becomes the `AttributeError` of the misspelled `template_name` |
| TemplateRender.Escape | src/typhoon/template.py:255-257 | a falsy `__escape__` leaves the text as it is, and `escape_html` escapes it |
| TemplateRender.Assign | src/typhoon/template.py:268-281 | unpacking fails exactly when the number of values differs from the number of names: "not enough values" when there are fewer, "need more than n" when there are more |
| TemplateRender.FirstTruthy | src/typhoon/template.py:313-316 | the index found is that of a truthy clause with every earlier clause falsy; an error is an evaluation error of some clause |
| TemplateRender.FirstSource | src/typhoon/template.py:448-450 | None exactly when no source has the name; otherwise the text under the name in some source |
| TemplateRender.Load | src/typhoon/template.py:442-456 | a cached name comes from the cache untouched; a successful load stores its template under the name; a failed one leaves the cache as it was; a coherent cache stays coherent and yields only what the sources compile to |
| TemplateRender.GetTemplate | src/typhoon/template.py:363-372 | a template is used as it is; a string without a loader is "cannot load by name"; anything else is a type error; the cache only grows |
| TemplateRender.RenderFrom | src/typhoon/template.py:22-30 | a block fails only with a render error or the `AttributeError` above, and rendering only appends to the buffer and adds to the cache |
| TemplateRender.RenderSeg | src/typhoon/template.py:24-26 | an include gives the parent its params back, and every segment only appends to the buffer and adds to the cache |
| TemplateRender.IfOutcome | src/typhoon/template.py:312-318 | an `if` only appends to the buffer and adds to the cache |
| TemplateRender.ForOutcome | src/typhoon/template.py:348-352 | a `for` only appends to the buffer and adds to the cache |
| TemplateRender.IncludeOutcome | src/typhoon/template.py:375-377 | an include leaves the parent's params as they were, only appends and adds to the cache |
| TemplateRender.SubContextOutcome | src/typhoon/template.py:46-52 | rendering in a sub-context only appends to the shared buffer and adds to the cache |
| TemplateRender.RenderItems | src/typhoon/template.py:350-352 | the loop over the items only appends to the buffer and adds to the cache |
| TemplateEngine.Buffer.constructor | src/typhoon/template.py:42 | a render starts with an empty buffer |
| TemplateEngine.Buffer.Append | src/typhoon/template.py:249-258 | appending adds the piece at the end and changes nothing else |
| TemplateEngine.Context.constructor | src/typhoon/template.py:218-222 | a context holds the given params, meta and buffer |
| TemplateEngine.Context.SubContext | src/typhoon/template.py:230-235 | the sub-context's params and meta are this context's overridden by the given ones, and it shares this context's buffer |
| TemplateEngine.Context.SetName | src/typhoon/template.py:261-286 | the setter leaves the params and error of `Bind` |
| TemplateEngine.Loader.constructor | src/typhoon/template.py:427-430 | a new loader holds its sources and parser and an empty cache |
| TemplateEngine.Loader.ClearCache | src/typhoon/template.py:432-433 | the cache is empty afterwards |
| TemplateEngine.Loader.Compile | src/typhoon/template.py:435-440 | the parser's compile with `__loader__` set to this loader, unless the caller's meta overrides it |
| TemplateEngine.Loader.Load | src/typhoon/template.py:442-456 | the result and new cache are those of `TemplateRender.Load` |
| TemplateEngine.Loader.Render | src/typhoon/template.py:458-459 | a keyword `self` or `template_name` is a TypeError; otherwise load, then render with the given params, as `LoaderRender` |
| TemplateEngine.RenderValueInContext | src/typhoon/template.py:22-30 | the params, buffer and cache afterwards, and the exception, are those of `RenderFrom` |
| TemplateEngine.RenderSegment | src/typhoon/template.py:24-26 | calling one segment leaves the state and exception of `RenderSeg` |
| TemplateEngine.VarSegment | src/typhoon/template.py:253-258 | evaluate, `str()`, escape when `__escape__` is set, append: the state of `VarOutcome` |
| TemplateEngine.IfBlock | src/typhoon/template.py:312-318 | the state and exception of `IfOutcome` |
| TemplateEngine.ForBlock | src/typhoon/template.py:348-352 | the loop over the items leaves the state and exception of `ForOutcome` |
| TemplateEngine.GetTemplateOf | src/typhoon/template.py:363-372 | the template and cache of `GetTemplate` |
| TemplateEngine.IncludeBlock | src/typhoon/template.py:375-377 | the state and exception of `IncludeOutcome` |
| TemplateEngine.RenderInSubContext | src/typhoon/template.py:46-52 | the state and exception of `SubContextOutcome` |
| TemplateEngine.RenderTemplate | src/typhoon/template.py:39-44 | the output and cache of `TemplateOutput`, a TypeError for a keyword `self` |
| TemplateEngine.Render | src/typhoon/template.py:468-469 | the output and cache of `ModuleRender`, a TypeError for a keyword `template` |
| RenderProperties.RenderFromStep | src/typhoon/template.py:24-26 | a segment that succeeds hands its state on to the next |
| RenderProperties.FirstTruthyAt | src/typhoon/template.py:313-316 | with every earlier clause falsy, the first truthy clause is the one found |
| RenderProperties.FirstTruthyNone | src/typhoon/template.py:313-318 | with every clause falsy, no clause is found |
| RenderProperties.IfRendersFirstTruthy | src/typhoon/template.py:312-316 | only the body of the first truthy clause renders |
| RenderProperties.IfFallsThrough | src/typhoon/template.py:317-318 | with every clause falsy, the else body renders, or nothing |
| RenderProperties.AssignBinds | src/typhoon/template.py:268-281 | unpacking binds the names in order to as many values as there are and touches no other name |
| RenderProperties.ForUnpackMismatch | src/typhoon/template.py:268-281 | a loop whose first item has the wrong number of values stops with the unpacking error, renders nothing, and leaves the names it bound set |
| RenderProperties.VarBodyRenders | src/typhoon/template.py:253-258 | the body `{{ n }}` with `n` bound to an item appends `str(item)` |
| RenderProperties.ForStep | src/typhoon/template.py:350-352 | one pass of the loop binds the name, renders the body and goes on |
| RenderProperties.ForRendersEachItem | src/typhoon/template.py:348-352 | `{% for n in xs %}{{ n }}{% endfor %}` renders `str()` of each item in order, and the last item stays bound after the loop |
| RenderProperties.IncludeOfTemplate | src/typhoon/template.py:375-377 | an included template renders into the same buffer with its defaults overridden by the parent's params and the parent's meta overridden by its own, and the parent gets its params back |
| RenderProperties.IncludeUnfolds | src/typhoon/template.py:375-377 | an include gets its template, renders it in a sub-context with one unit of fuel less, and gives the parent its params back |
| RenderProperties.SubContextRenders | src/typhoon/template.py:46-52 | the two merges of `render_in_sub_context` and `sub_context` leave the parent's params over the template's defaults and the template's meta over the parent's |
| RenderProperties.IncludeGot | src/typhoon/template.py:375-377 | an include renders the template that `get_template` returned, from the cache it left |
| RenderProperties.IncludeByName | src/typhoon/template.py:366-370 | an include by name loads through the loader, and a failed load is the include's exception |
| RenderProperties.IncludeByNameLoads | src/typhoon/template.py:366-377 | a template loaded by name renders as an included template does, from the cache the load left |
| RenderProperties.LoadByName | src/typhoon/template.py:366-370 | with the loader in the meta, `get_template` of a string is `load` of it |
| RenderProperties.IncludeRejects | src/typhoon/template.py:363-372 | an include by name without a loader, or of something neither a template nor a string, is a render error on the include's line |
| RenderProperties.EscapeByExtension | src/typhoon/template.py:150-156 | `compile` sets `__escape__` to `escape_html` exactly for `.html` and `.htm` names, unless the caller's meta sets it |
| RenderProperties.ExtOfHtml | src/typhoon/template.py:151 | the extension of `index.html` is `.html` |
| RenderProperties.ExtOfLastDot | src/typhoon/template.py:151 | only the last dot counts: `a.b.htm` has `.htm` |
| RenderProperties.ExtNone | src/typhoon/template.py:151 | `__string__`, a leading-dot name and a dot in a directory have no extension |
| RenderProperties.StringTemplateUnescaped | src/typhoon/template.py:464-469 | templates compiled by the module-level `render` are not escaped |
| RenderProperties.VarSegmentEscaping | src/typhoon/template.py:253-258 | an expression appends `str(value)`, escaped by `escape_html` when that is the meta's `__escape__`, and as it is when `__escape__` is unset or falsy |
| RenderProperties.FirstSourceIs | src/typhoon/template.py:448-450 | the first source in list order that has the name supplies the text |
| RenderProperties.LoadMiss | src/typhoon/template.py:446-454 | a cache miss compiles the first source's text under the loader and stores the result only on success |
| RenderProperties.LoadNotFound | src/typhoon/template.py:455-456 | a name in no source is `TemplateNotFoundError`, and nothing is cached |
| RenderProperties.LoadTwice | src/typhoon/template.py:446-447 | a second load of a name returns the same template and leaves the cache alone |
| RenderProperties.CacheIsTransparent | src/typhoon/template.py:446-454 | with a coherent cache, a hit returns what a load after `clear_cache` would compile |
| RenderProperties.StrSegRenders | src/typhoon/template.py:249-250 | a text segment appends its text |
| RenderProperties.TextBlockRenders | src/typhoon/template.py:249-250 | a block of text segments appends their texts in order |
| RenderProperties.TextOnlyCompiles | src/typhoon/template.py:150-161 | a text of string tokens only compiles to their text segments, with empty params and the meta of `compile` |
| RenderProperties.TextTemplateRenders | src/typhoon/template.py:39-44 | rendering a template of text segments gives their texts joined |
| RenderProperties.TextOnlyRenders | src/typhoon/template.py:468-469 | the module-level `render` of a text of string tokens only is their contents joined |
| RenderProperties.PlainTextRenders | src/typhoon/template.py:468-469 | the module-level `render` of a text with no tag opener is the text itself |
| RenderProperties.CommentRendersNothing | src/typhoon/template.py:79-90 | a text followed by a comment renders as the text |
| RenderProperties.VariableRenders | src/typhoon/template.py:468-469 | `render("{{ x }}", **kwargs)` is `str()` of the value of `x`, unescaped |
| RenderProperties.VarTemplateRenders | src/typhoon/template.py:39-44 | the template of `{{ x }}` renders `str()` of the value of `x` |
| RenderProperties.KeywordClashRejected | src/typhoon/template.py:39 | a keyword argument that repeats a named parameter is a TypeError before anything else happens: `self` for `Template.render`, `self` or `template_name` for `Loader.render` (line 458), `template` for the module-level `render` (line 468), and `self` there after the compile |
| RenderProperties.VariableCompiles | src/typhoon/template.py:150-172 | `{{ x }}` compiles to one expression segment on line 1 |
| FormUser.GetArgument | src/typhoon/web.py:128-142 | None exactly when the name was not sent or has no value, otherwise the last value sent |
| FormUser.LastValueWins | src/typhoon/web.py:136-142 | when a name is sent several times, the last value wins |
| FormUser.UsernameFinalNewline | src/form/user.py:8 | an accepted user name is also accepted with one final newline, but not with two |
| FormUser.UsernameLength | src/form/user.py:8 | an accepted user name has 3 to 20 characters apart from a final newline, and no newline anywhere else |
| FormUser.EmailSplit | src/form/user.py:11 | an accepted address is a local part, an `@` and a domain |
| FormUser.DomainHasNoAt | src/form/user.py:11 | the domain of an accepted address holds no `@` and no `+` |
| FormUser.EmailOneAt | src/form/user.py:11 | an accepted address has exactly one `@` |
| FormUser.EmailEndsWithLetters | src/form/user.py:11 | an accepted address ends with a dot and a last label of at least two letters |
| FormUser.EmailPlusInFirstSegment | src/form/user.py:11 | a `+` can stand only in the first segment of the local part: no dot and no `@` before it |
| FormUser.EmailFinalNewline | src/form/user.py:11 | an accepted address is also accepted with one final newline |
| FormUser.EmailAccepts | src/form/user.py:11 | a first segment, `@`, one domain label, a dot and a label of at least two letters is accepted |
| FormUser.EmailHyphenInFirstLabel | src/form/user.py:11 | a hyphen after the `@` stands in the first domain label: no dot between the `@` and it |
| FormUser.HyphenatedDomainAccepted | src/form/user.py:10-11 | `hello@bla-bla.com` is accepted, contrary to the comment above the pattern |
| FormUser.RegisterErrorsEmpty | src/form/user.py:44-69 | the checks before the database find nothing exactly when every field was sent, the name and address match, the password has 3 to 32 characters and the confirmation equals it |
| FormUser.RegisterErrorsPerField | src/form/user.py:44-69 | each field adds at most one message, so at most four; the password adds one exactly when it is missing or its length is out of range |
| FormUser.MismatchNeedsBothPasswords | src/form/user.py:65-69 | the mismatch message appears exactly when both passwords were sent and differ |
| FormUser.RegisterValidationOutcome | src/form/user.py:76-85 | a registration succeeds exactly when no earlier message, acceptable input and an unused address; the in-use message is added exactly when everything else passed and the address is taken |
| FormUser.RegisterValidationAccumulates | src/form/user.py:42-85 | validating a form that already holds messages appends the new ones, fails again, and grows the list exactly when the input is not acceptable |
| FormUser.LoginChecksPresence | src/form/user.py:88-102 | a login form passes exactly when both the address and the password were sent, whatever their contents |
| FormUser.Form.constructor | src/form/user.py:21-26 | a new form is not validated and has no fields and no messages |
| FormUser.Form.Get | src/form/user.py:28-31 | an error exactly when the form is not validated; otherwise the recorded value, or None for a name never recorded |
| FormUser.RegisterValidate | src/form/user.py:42-85 | the form is validated, the three values are recorded, the messages become those of `RegisterValidation`, and the result is true exactly when there are none |
| FormUser.LoginValidate | src/form/user.py:88-102 | the form is validated, the two values are recorded, the login messages are appended, and the result is true exactly when there are none |

## Left out

- **Python expressions.** `compile`, `eval`, the truthiness, `str()` and iteration of host objects, and calls of host escape functions are not modelled. They are parameters (the `Host` value), because they belong to the interpreter.
- **Failing host objects.** The host's `str()` and truth test never fail, and iterating a host object yields all of its items or fails before the first one. In the source, `str()` (template.py:254) and the truth test of `if` (template.py:314) can raise, and so can an iteration part-way through (template.py:350), after some bodies have written to the buffer and filled the loader cache. The model does not express these failures.
- **The `params` dictionary of `compile`.** When the caller's dictionary is non-empty, the source keeps it by reference (template.py:157-161, stored at template.py:36), so a later change to it changes the defaults of the next render. The model's `Template` holds the params as a value, so it does not capture that aliasing.
- **Integers and objects.** `str()` of integers is concrete; floats, dicts and other objects are host objects.
- **DirectorySource.** It reads files. Sources are `MemorySource` maps in list order.
- **`TemplateError.__str__`.** Its message formatting is not modelled. Only its effect is: it raises `AttributeError` because of the misspelled attribute. Error messages are constructors of `Why`, not formatted strings.
- **One loader per render.** A template's `__loader__` stands for the loader passed to the render. A meta that holds some other loader object is not modelled.
- **Custom escape functions and macros.** A user-supplied escape callable is a host object. Parsers with user-written macros are left out. Only the three default macros and rearrangements of them are modelled.
- **Recursion limit.** Python's recursion limit is modelled as `fuel`. Running out of fuel is a render error. The exact depth at which Python raises `RecursionError` is not modelled.
- **Python 2 byte strings.** Strings are sequences of characters. The password length is counted in characters, not in the bytes a Python 2 `str` would count for non-ASCII input.
- **The user store.** The database lookup of `RegisterForm.validate` is not modelled. That covers `UserDAO`, `get_db_config` and the lower-casing of the address. Its answer is the parameter `emailInUse`. `src/model/user.py` is not part of this model.
- **Form messages.** They are the constructors of `FormError`. `FormUser.Message` gives their exact texts.
- FormUser.RegisterValidate: the nested `if`/`elif` checks of each field are written as appends of the functions `UsernameErrors`, `EmailErrors`, `PasswordErrors` and `ConfirmErrors`. These functions take the same branches.
- **Other modules.** The rest of the application is not part of this model:
  - the web framework (`src/typhoon/web.py`, apart from `get_argument`), the HTTP and CGI utilities, logging and sessions;
  - the handlers, the models and the database layer;
  - the JavaScript;
  - concurrency.
