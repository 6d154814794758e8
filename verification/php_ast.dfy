/**
 * The fragment of the PHP syntax tree that the settings generator builds,
 * together with the runtime values its scalar encoder accepts.
 */
module PhpAst {
  import opened Wrappers

  /** A PHP runtime value, classified the way `gettype()` classifies it. */
  datatype PhpValue =
    | BoolVal(b: bool)
    | IntVal(i: int)
    | FloatVal(f: real)
    | StringVal(s: string)
    | NullVal
    | ArrayVal
    | ObjectVal

  /** The name `gettype()` reports for a value (PHP reports "double" for floats). */
  function TypeName(v: PhpValue): string
  {
    match v
    case BoolVal(_) => "boolean"
    case IntVal(_) => "integer"
    case FloatVal(_) => "double"
    case StringVal(_) => "string"
    case NullVal => "NULL"
    case ArrayVal => "array"
    case ObjectVal => "object"
  }

  /** The kinds of `include`/`require` expression. */
  datatype IncludeKind = Include | IncludeOnce | Require | RequireOnce

  /** Expression nodes. */
  datatype Expr =
    | Variable(name: string)
    | ArrayDimFetch(base: Expr, dim: Option<Expr>)
    | FuncCall(func: string, args: seq<Expr>)
    | StringLit(str: string)
    | IntLit(ival: int)
    | FloatLit(fval: real)
    | IncludeExpr(path: Expr, kind: IncludeKind)
    | ArrayLit(items: seq<Item>)
    | Assign(target: Expr, value: Expr)

  /** One `key => value` item of an array literal; a missing key is an unkeyed item. */
  datatype Item = Item(value: Expr, key: Option<Expr>)

  /**
   * A comment attached to a generated statement: one of the three fixed doc
   * comments the generator emits (their text is `Text`).
   */
  datatype Comment = GeneratedHeader | IncludeHeader | EnvironmentHeader {

    /** The doc comment's source text. */
    function Text(): string
    {
      match this
      case GeneratedHeader =>
        "\n/**\n * Content after this line was autogenerated by roygoldman/drupal-env-settings.\n */\n"
      case IncludeHeader =>
        "/**\n * Load dynamic configration from file outside of Drupal root.\n */"
      case EnvironmentHeader =>
        "\n/**\n * Load settings from the environment.\n */"
    }
  }

  /**
   * Statement nodes. `Opaque` stands for any statement the template parser
   * produced that the generator never builds or inspects.
   */
  datatype Stmt =
    | If(cond: Expr, stmts: seq<Stmt>, comments: seq<Comment>)
    | Expression(expr: Expr, comments: seq<Comment>)
    | Opaque(id: nat)

  /** The comments a statement carries. */
  function Comments(s: Stmt): seq<Comment>
  {
    match s
    case If(_, _, cs) => cs
    case Expression(_, cs) => cs
    case Opaque(_) => []
  }

  /** The value a scalar literal node evaluates to at run time, if it is one. */
  function LiteralValue(e: Expr): Option<PhpValue>
  {
    match e
    case IntLit(i) => Some(IntVal(i))
    case FloatLit(f) => Some(FloatVal(f))
    case StringLit(s) => Some(StringVal(s))
    case _ => None
  }
}
