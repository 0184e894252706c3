/** The values, compiled segment trees and errors of the template engine
    (src/typhoon/template.py), and the parts of the Python interpreter the
    engine leans on.

    A compiled template is a tree of segments. In the source every segment
    is a `functools.partial` over a rendering function (`_string_segment`,
    `_var_segment`, `if_block`, `for_block`, `include_block`); here each is
    a constructor of `Segment` holding the same arguments. Expressions are
    kept as their source text and handed to the interpreter (`Host`) when
    they are compiled and evaluated. */
module TemplateAst {
  import opened Wrappers

  /** The values a template expression can produce. Scalars, strings and
      lists are concrete; `Obj(id)` is any other object of the host program,
      whose truthiness, `str()`, iteration and calls the host decides.
      `LoaderV` is the template loader, `EscapeHtmlV` the function
      `escape_html`. */
  datatype Value =
    | NoneV
    | BoolV(b: bool)
    | IntV(i: int)
    | StrV(s: string)
    | ListV(items: seq<Value>)
    | TemplateV(t: Template)
    | LoaderV
    | EscapeHtmlV
    | Obj(id: nat)

  /** `Template`: the top-level block, the default params and the meta
      dictionary (the globals of every evaluation). */
  datatype Template = Template(body: Block, params: map<string, Value>, meta: map<string, Value>)

  /** `TemplateBlock`: segments paired with the line of the token that
      produced them, and the name of the template being compiled. */
  datatype Block = Block(segments: seq<LSeg>, name: string)

  datatype LSeg = LSeg(line: nat, seg: Segment)

  datatype Segment =
    | StrSeg(text: string)                                   // _string_segment
    | VarSeg(expr: string)                                   // _var_segment
    | IfSeg(clauses: seq<Clause>, elseBlock: Option<Block>)  // if_block
    | ForSeg(setter: Setter, iterExpr: string, body: Block)  // for_block
    | IncludeSeg(expr: string)                               // include_block

  /** Every block of the tree carries `name`: the name a render error
      raised inside it reports. */
  predicate BlockNamed(b: Block, name: string)
    decreases b
  {
    b.name == name && forall k :: 0 <= k < |b.segments| ==> SegNamed(b.segments[k].seg, name)
  }

  predicate SegsNamed(segs: seq<LSeg>, name: string) {
    forall k :: 0 <= k < |segs| ==> SegNamed(segs[k].seg, name)
  }

  lemma SegsNamedAppend(segs: seq<LSeg>, x: LSeg, name: string)
    ensures SegsNamed(segs, name) && SegNamed(x.seg, name) ==> SegsNamed(segs + [x], name)
  {
    assert forall k :: 0 <= k < |segs| ==> (segs + [x])[k] == segs[k];
  }

  predicate SegNamed(s: Segment, name: string)
    decreases s
  {
    match s
    case IfSeg(cls, els) =>
      (forall j :: 0 <= j < |cls| ==> BlockNamed(cls[j].body, name)) && (els.Some? ==> BlockNamed(els.value, name))
    case ForSeg(_, _, body) => BlockNamed(body, name)
    case _ => true
  }

  /** One `(evaluate, block)` pair of an `if` chain. */
  datatype Clause = Clause(cond: string, body: Block)

  /** What `name_setter` builds: one name bound to the whole item, or a
      list of names bound by unpacking it. */
  datatype Setter = Single(name: string) | Unpack(names: seq<string>)

  /** The reason carried by an exception that is not yet a template error. */
  datatype Why =
    | UnknownTag(tag: string)              // "{% x %} is not a recognized tag."
    | Unterminated(start: string, stop: string) // "if tag could not find a corresponding endif."
    | UnrecognizedEnd(tag: string)         // "x is not a recognizd tag"
    | ElifAfterElse
    | DoubleElse
    | BadExpression(expr: string)          // `compile` raised SyntaxError
    | EvalError(message: string)           // `eval` raised
    | NotIterable
    | NotEnoughValues
    | TooManyValues(count: nat)
    | CannotLoadByName(name: string)
    | NoLoadMethod                         // `__loader__` is truthy but has no `load`
    | NotATemplate
    | NotFound(name: string)               // TemplateNotFoundError
    | NotCallable                          // `__escape__` is truthy but not callable
    | EscapeFailed(message: string)        // a host escape function raised
    | Unprintable                          // the AttributeError of `TemplateError.__str__`
    | RecursionLimit
    | ArgumentClash                        // TypeError: a keyword argument repeats a named parameter

  /** `TemplateCompileError` and `TemplateRenderError`: the message, the
      template name and the line. */
  datatype TemplateError =
    | CompileError(why: Why, name: string, line: nat)
    | RenderError(why: Why, name: string, line: nat)

  /** An exception in flight: a plain one, or a template error. */
  datatype Failure = Raw(why: Why) | Raised(err: TemplateError)

  /** The parts of the Python interpreter the engine calls: `compile` of an
      expression, `eval` with meta as globals and params as locals, and the
      truthiness, `str()`, iteration and calling of host objects. */
  datatype Host = Host(
    compiles: string -> bool,
    eval: (string, map<string, Value>, map<string, Value>) -> Result<Value, string>,
    truthy: nat -> bool,
    str: Value -> string,
    iter: nat -> Option<seq<Value>>,
    call: (nat, string) -> Result<string, string>)

  /** Python truthiness. */
  function Truthy(h: Host, v: Value): bool {
    match v
    case NoneV => false
    case BoolV(b) => b
    case IntV(i) => i != 0
    case StrV(s) => s != ""
    case ListV(items) => items != []
    case TemplateV(_) => true
    case LoaderV => true
    case EscapeHtmlV => true
    case Obj(id) => h.truthy(id)
  }

  function DigitChar(d: nat): char
    requires d < 10
  {
    "0123456789"[d]
  }

  /** Decimal digits of a natural number, most significant first. */
  function NatToString(n: nat): string
    decreases n
  {
    if n < 10 then [DigitChar(n)] else NatToString(n / 10) + [DigitChar(n % 10)]
  }

  /** `str()`: concrete for None, booleans, integers and strings. */
  function StrOf(h: Host, v: Value): string {
    match v
    case NoneV => "None"
    case BoolV(b) => if b then "True" else "False"
    case IntV(i) => if i < 0 then "-" + NatToString(-i) else NatToString(i)
    case StrV(s) => s
    case _ => h.str(v)
  }

  /** `iter()`, run to the end: the items of a list, the characters of a
      string, whatever a host object yields; anything else is not
      iterable. */
  function IterOf(h: Host, v: Value): Result<seq<Value>, Why> {
    match v
    case ListV(items) => Ok(items)
    case StrV(s) => Ok(Chars(s))
    case Obj(id) => if h.iter(id).Some? then Ok(h.iter(id).value) else Err(NotIterable)
    case _ => Err(NotIterable)
  }

  /** The one-character strings of `s`, in order. */
  function Chars(s: string): (r: seq<Value>)
    ensures |r| == |s| && forall k :: 0 <= k < |s| ==> r[k] == StrV([s[k]])
  {
    if s == [] then [] else [StrV([s[0]])] + Chars(s[1..])
  }

  /** `d.get(k)`: the value under `k`, or None. */
  function Get(d: map<string, Value>, k: string): Value {
    if k in d then d[k] else NoneV
  }
}
