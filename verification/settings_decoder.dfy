/**
 * Reads a generated assignment back as the settings entry it encodes. This
 * is the inverse the settings generator is proved against: an integer or
 * string literal key is read as that key, a `getenv('NAME')` call as a leaf,
 * an array literal as a composite, and a subscript chain on `$name` as a run
 * of single-entry composites.
 */
module SettingsDecoder {
  import opened Wrappers
  import opened PhpAst
  import opened EnvSettings

  /** The array key a key node stands for. */
  function KeyOf(e: Option<Expr>): Option<Key>
  {
    match e
    case Some(IntLit(i)) => Some(IntKey(i))
    case Some(StringLit(s)) => Some(StrKey(s))
    case _ => None
  }

  /** The variable name and subscript keys of an assignment target. */
  function DecodeTarget(e: Expr): Option<(string, seq<Key>)>
  {
    match e
    case Variable(name) => Some((name, []))
    case ArrayDimFetch(base, dim) =>
      var outer, k := DecodeTarget(base), KeyOf(dim);
      if outer.Some? && k.Some? then Some((outer.value.0, outer.value.1 + [k.value])) else None
    case _ => None
  }

  /** The specification an assigned value encodes. */
  function DecodeValue(e: Expr): Option<Spec>
  {
    match e
    case FuncCall(func, args) =>
      if func == "getenv" && |args| == 1 && args[0].StringLit? then Some(Leaf(args[0].str)) else None
    case ArrayLit(items) =>
      if forall i :: 0 <= i < |items| ==> KeyOf(items[i].key).Some? && DecodeValue(items[i].value).Some?
      then Some(Composite(seq(|items|, i requires 0 <= i < |items| =>
             (KeyOf(items[i].key).value, DecodeValue(items[i].value).value))))
      else None
    case _ => None
  }

  /** The top-level settings entry an assignment encodes. */
  function DecodeAssignment(e: Expr): Option<(string, Spec)>
  {
    if e.Assign? then
      var target, v := DecodeTarget(e.target), DecodeValue(e.value);
      if target.Some? && v.Some? then Some((target.value.0, Nest(target.value.1, v.value))) else None
    else None
  }

  /** The top-level settings entry an expression statement encodes. */
  function DecodeStatement(s: Stmt): Option<(string, Spec)>
  {
    if s.Expression? then DecodeAssignment(s.expr) else None
  }
}
