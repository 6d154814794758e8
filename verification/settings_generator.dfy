/**
 * The settings tree builder: appends an include guard and one assignment
 * per top-level settings entry to a parsed configuration template.
 */
module SettingsGenerator {
  import opened Wrappers
  import opened PhpAst
  import opened EnvSettings
  import opened SettingsDecoder

  /** Path of the configuration file that lives outside the web root. */
  const CONFIG_FILE_NAME: string := "../config.php"

  /**
   * What a run of the generator leaves behind. `Aborted` is a run that
   * never reaches the write: an uncaught error, or a loop that never ends.
   */
  datatype Outcome =
    | ParseFailed(message: string)
    | Aborted
    | Written(path: string, code: seq<Stmt>)

  // ---------------------------------------------------------------------
  // Scalar encoding and leaf lookup
  // ---------------------------------------------------------------------

  /**
   * The scalar encoder with the dispatch the code evidently intends: floats
   * become float literals, booleans and integers integer literals, strings
   * string literals, and any other value no node at all.
   */
  function GetAsScaler(v: PhpValue): (r: Option<Expr>)
    ensures r.Some? <==> (v.BoolVal? || v.IntVal? || v.FloatVal? || v.StringVal?)
    ensures !v.BoolVal? && r.Some? ==> LiteralValue(r.value) == Some(v)
    ensures v.BoolVal? ==> r.Some? && LiteralValue(r.value) == Some(IntVal(if v.b then 1 else 0))
  {
    match v
    case FloatVal(f) => Some(FloatLit(f))
    case BoolVal(b) => Some(IntLit(if b then 1 else 0))
    case IntVal(i) => Some(IntLit(i))
    case StringVal(s) => Some(StringLit(s))
    case _ => None
  }

  /**
   * The scalar encoder as written: it dispatches on the type name "float",
   * which `gettype()` never reports, so a float falls through to no node.
   */
  function GetAsScalerAsWritten(v: PhpValue): (r: Option<Expr>)
    ensures r.Some? <==> (v.BoolVal? || v.IntVal? || v.StringVal?)
    ensures r.Some? ==> r == GetAsScaler(v)
  {
    match TypeName(v)
    case "float" => Some(FloatLit(FloatOf(v)))
    case "boolean" => Some(IntLit(if v.b then 1 else 0))
    case "integer" => Some(IntLit(v.i))
    case "string" => Some(StringLit(v.s))
    case _ => None
  }

  /** The number a float value carries; the as-written encoder's float branch reads it. */
  function FloatOf(v: PhpValue): real
  {
    if v.FloatVal? then v.f else 0.0
  }

  /** A float is the input on which the as-written encoder and the intended one part. */
  lemma FloatKeyDropped()
    ensures GetAsScalerAsWritten(FloatVal(1.5)) == None
    ensures GetAsScaler(FloatVal(1.5)) == Some(FloatLit(1.5))
  {
  }

  /** The runtime value of an array key. */
  function KeyValue(k: Key): PhpValue
  {
    match k
    case IntKey(i) => IntVal(i)
    case StrKey(s) => StringVal(s)
  }

  /** The node an array key encodes to. */
  function KeyNode(k: Key): Option<Expr>
  {
    GetAsScaler(KeyValue(k))
  }

  /**
   * Array keys are only ever integers or strings, so on every key the
   * as-written encoder gives the node the intended one gives.
   */
  lemma AsWrittenAgreesOnKeys(k: Key)
    ensures GetAsScalerAsWritten(KeyValue(k)) == KeyNode(k)
    ensures KeyNode(k).Some?
  {
  }

  /** A `getenv()` call looking up the environment variable `varName`. */
  function BuildGetEnvNode(varName: string): (r: Expr)
    ensures r.FuncCall? && r.func == "getenv"
    ensures |r.args| == 1 && r.args[0] == StringLit(varName)
    ensures DecodeValue(r) == Some(Leaf(varName))
  {
    FuncCall("getenv", [StringLit(varName)])
  }

  // ---------------------------------------------------------------------
  // Array literals (never collapsed)
  // ---------------------------------------------------------------------

  /**
   * An array literal with one item per entry, in order: a leaf becomes a
   * `getenv()` call, a nested composite a nested literal, whatever its size.
   */
  function BuildArrayItems(values: seq<(Key, Spec)>): (r: Expr)
    ensures r.ArrayLit? && |r.items| == |values|
    ensures forall i :: 0 <= i < |values| ==> r.items[i].key == KeyNode(values[i].0)
    ensures forall i :: 0 <= i < |values| && values[i].1.Leaf? ==>
              r.items[i].value == BuildGetEnvNode(values[i].1.envVar)
    ensures forall i :: 0 <= i < |values| && values[i].1.Composite? ==>
              r.items[i].value.ArrayLit? && |r.items[i].value.items| == |values[i].1.entries|
    decreases Composite(values)
  {
    ArrayLit(seq(|values|, i requires 0 <= i < |values| =>
      Item(
        match values[i].1
        case Leaf(name) => BuildGetEnvNode(name)
        case Composite(sub) => BuildArrayItems(sub),
        KeyNode(values[i].0))))
  }

  // ---------------------------------------------------------------------
  // Include guard
  // ---------------------------------------------------------------------

  /**
   * The path a statement guards and includes, when it has the include-guard
   * shape: `if (file_exists(P)) { include_once P; }` with the same `P` twice.
   */
  function GuardedInclude(s: Stmt): Option<string>
  {
    if s.If? && s.cond.FuncCall? && s.cond.func == "file_exists"
       && |s.cond.args| == 1 && s.cond.args[0].StringLit?
       && |s.stmts| == 1 && s.stmts[0].Expression?
       && s.stmts[0].expr == IncludeExpr(s.cond.args[0], IncludeOnce)
    then Some(s.cond.args[0].str)
    else None
  }

  /** Appends the include guard for the configuration file outside the web root. */
  function InjectConfigLoader(code: seq<Stmt>): (r: seq<Stmt>)
    ensures |r| == |code| + 1 && r[..|code|] == code
    ensures GuardedInclude(r[|code|]) == Some(CONFIG_FILE_NAME)
    ensures Comments(r[|code|]) == [GeneratedHeader, IncludeHeader]
  {
    code + [If(
      FuncCall("file_exists", [StringLit(CONFIG_FILE_NAME)]),
      [Expression(IncludeExpr(StringLit(CONFIG_FILE_NAME), IncludeOnce), [])],
      [GeneratedHeader, IncludeHeader])]
  }

  // ---------------------------------------------------------------------
  // Variable assignments
  // ---------------------------------------------------------------------

  /** `base` subscripted by the encoded keys of `path`, first key innermost. */
  function DimChain(base: Expr, path: seq<Key>): Expr
    decreases path
  {
    if path == [] then base
    else DimChain(ArrayDimFetch(base, KeyNode(path[0])), path[1..])
  }

  /** One more key adds one outermost subscript. */
  lemma {:induction false} DimChainSnoc(base: Expr, path: seq<Key>, k: Key)
    ensures DimChain(base, path + [k]) == ArrayDimFetch(DimChain(base, path), KeyNode(k))
    decreases path
  {
    if path != [] {
      assert (path + [k])[1..] == path[1..] + [k];
      DimChainSnoc(ArrayDimFetch(base, KeyNode(path[0])), path[1..], k);
    }
  }

  /**
   * The right-hand side for the value the collapsing loop stopped at: a
   * `getenv()` call for a leaf, an array literal for a composite. Either
   * reads back as that value.
   */
  function AssignedValue(rest: Spec): (r: Expr)
    ensures DecodeValue(r) == Some(rest)
    ensures rest.Leaf? ==> r == BuildGetEnvNode(rest.envVar)
    ensures rest.Composite? ==> r.ArrayLit? && |r.items| == |rest.entries|
  {
    match rest
    case Leaf(name) => BuildGetEnvNode(name)
    case Composite(entries) =>
      BuildArrayItemsRoundTrip(entries);
      BuildArrayItems(entries)
  }

  /**
   * The assignment generated for the top-level entry `name => v`: the run of
   * single-entry composites becomes a subscript chain on `$name`, and what
   * is left becomes the assigned value.
   */
  function VariableAssignment(name: string, v: Spec): (r: Expr)
    ensures r.Assign? && DecodeValue(r.value) == Some(Spine(v).1)
    ensures !IsSingleton(v) ==> r.target == Variable(name)
    ensures v.Leaf? ==> r == Assign(Variable(name), BuildGetEnvNode(v.envVar))
  {
    var (path, rest) := Spine(v);
    Assign(DimChain(Variable(name), path), AssignedValue(rest))
  }

  /** The comments on the `index`-th generated assignment. */
  function HeaderFor(index: nat): seq<Comment>
  {
    if index == 0 then [EnvironmentHeader] else []
  }

  /** How many statements of `stmts` carry the comment `c`. */
  function CountCommented(stmts: seq<Stmt>, c: Comment): nat
  {
    if stmts == [] then 0
    else (if c in Comments(stmts[0]) then 1 else 0) + CountCommented(stmts[1..], c)
  }

  /** No statement carries `c`, so none is counted. */
  lemma {:induction false} CountCommentedAbsent(stmts: seq<Stmt>, c: Comment)
    requires forall i :: 0 <= i < |stmts| ==> c !in Comments(stmts[i])
    ensures CountCommented(stmts, c) == 0
  {
    if stmts != [] {
      CountCommentedAbsent(stmts[1..], c);
    }
  }

  /** Statements commented as the generated assignments are: the header is counted once, if any. */
  lemma EnvironmentHeaderOnce(stmts: seq<Stmt>)
    requires forall i :: 0 <= i < |stmts| ==> Comments(stmts[i]) == HeaderFor(i)
    ensures CountCommented(stmts, EnvironmentHeader) == if stmts == [] then 0 else 1
  {
    if stmts != [] {
      forall i | 0 <= i < |stmts[1..]|
        ensures EnvironmentHeader !in Comments(stmts[1..][i])
      {
        assert Comments(stmts[1..][i]) == HeaderFor(i + 1);
      }
      CountCommentedAbsent(stmts[1..], EnvironmentHeader);
    }
  }

  /**
   * Behind an include guard, the generated header appears once in all, and
   * the environment header as often as among the assignments alone.
   */
  lemma ProvenanceCounts(guard: Stmt, assignments: seq<Stmt>)
    requires Comments(guard) == [GeneratedHeader, IncludeHeader]
    requires forall i :: 0 <= i < |assignments| ==> Comments(assignments[i]) == HeaderFor(i)
    ensures CountCommented([guard] + assignments, GeneratedHeader) == 1
    ensures CountCommented([guard] + assignments, EnvironmentHeader)
            == CountCommented(assignments, EnvironmentHeader)
  {
    assert ([guard] + assignments)[1..] == assignments;
    CountCommentedAbsent(assignments, GeneratedHeader);
  }

  // ---------------------------------------------------------------------
  // Round trips through the decoder
  // ---------------------------------------------------------------------

  /** Every array key encodes to a node that reads back as the same key. */
  lemma KeyNodeRoundTrip(k: Key)
    ensures KeyOf(KeyNode(k)) == Some(k)
  {
  }

  /** One more subscript reads back as one more key. */
  lemma DecodeDimStep(base: Expr, name: string, path: seq<Key>, k: Key)
    requires DecodeTarget(base) == Some((name, path))
    ensures DecodeTarget(ArrayDimFetch(base, KeyNode(k))) == Some((name, path + [k]))
  {
    KeyNodeRoundTrip(k);
  }

  /** A subscript chain reads back as its variable name and keys. */
  lemma {:induction false} DimChainRoundTrip(base: Expr, name: string, prefix: seq<Key>, path: seq<Key>)
    requires DecodeTarget(base) == Some((name, prefix))
    ensures DecodeTarget(DimChain(base, path)) == Some((name, prefix + path))
    decreases path
  {
    if path == [] {
      assert prefix + path == prefix;
    } else {
      DecodeDimStep(base, name, prefix, path[0]);
      DimChainRoundTrip(ArrayDimFetch(base, KeyNode(path[0])), name, prefix + [path[0]], path[1..]);
      assert prefix + [path[0]] + path[1..] == prefix + path;
    }
  }

  /** An array literal reads back as exactly the entries it was built from. */
  lemma {:induction false} BuildArrayItemsRoundTrip(values: seq<(Key, Spec)>)
    ensures DecodeValue(BuildArrayItems(values)) == Some(Composite(values))
    decreases Composite(values)
  {
    var r := BuildArrayItems(values);
    forall i | 0 <= i < |values|
      ensures KeyOf(r.items[i].key) == Some(values[i].0)
      ensures DecodeValue(r.items[i].value) == Some(values[i].1)
    {
      KeyNodeRoundTrip(values[i].0);
      if values[i].1.Composite? {
        BuildArrayItemsRoundTrip(values[i].1.entries);
      }
    }
    var decoded := seq(|r.items|, i requires 0 <= i < |r.items| =>
      (KeyOf(r.items[i].key).value, DecodeValue(r.items[i].value).value));
    assert decoded == values;
  }

  /** A generated assignment reads back as the settings entry it came from. */
  lemma VariableAssignmentRoundTrip(name: string, v: Spec)
    ensures DecodeAssignment(VariableAssignment(name, v)) == Some((name, v))
  {
    var (path, rest) := Spine(v);
    DimChainRoundTrip(Variable(name), name, [], path);
    assert [] + path == path;
  }

  /** The statements read back, one by one, as the settings entries. */
  predicate EncodesSettings(stmts: seq<Stmt>, envSettings: seq<(string, Spec)>)
  {
    |stmts| == |envSettings| &&
    forall i :: 0 <= i < |stmts| ==> DecodeStatement(stmts[i]) == Some(envSettings[i])
  }

  // ---------------------------------------------------------------------
  // Generation
  // ---------------------------------------------------------------------

  /**
   * The collapsing loop: while the value is a single-entry composite, one
   * subscript with that entry's encoded key is added to `$name` and the
   * value is replaced by the entry's value. It stops at the spine's end.
   */
  method CollapseTarget(name: string, v: Spec) returns (variable: Expr, value: Spec)
    ensures variable == DimChain(Variable(name), Spine(v).0)
    ensures value == Spine(v).1 && !IsSingleton(value)
  {
    variable := Variable(name);
    value := v;
    ghost var path: seq<Key> := [];
    while IsSingleton(value)
      invariant Nest(path, value) == v
      invariant variable == DimChain(Variable(name), path)
      decreases value
    {
      var (key, inner) := value.entries[0];
      assert value == Composite([(key, inner)]);
      variable := ArrayDimFetch(variable, KeyNode(key));
      DimChainSnoc(Variable(name), path, key);
      NestSnoc(path, key, inner);
      path := path + [key];
      value := inner;
    }
    SpineUnique(path, value);
  }

  /**
   * The assignment generated for the entry `name => v`: a leaf at the top
   * keeps the bare variable; otherwise the collapsed target receives a
   * `getenv()` call or an array literal, by what the collapsing left.
   */
  method BuildAssignment(name: string, v: Spec) returns (assignment: Expr)
    ensures assignment == VariableAssignment(name, v)
    ensures v.Leaf? ==> assignment == Assign(Variable(name), BuildGetEnvNode(v.envVar))
  {
    var variable := Variable(name);
    var assignedValue;
    if v.Composite? {
      var rest;
      variable, rest := CollapseTarget(name, v);
      if rest.Leaf? {
        assignedValue := BuildGetEnvNode(rest.envVar);
      } else {
        assignedValue := BuildArrayItems(rest.entries);
      }
    } else {
      assignedValue := BuildGetEnvNode(v.envVar);
    }
    assignment := Assign(variable, assignedValue);
  }

  /**
   * The assignment statements generated for all entries, in order; only the
   * first carries the environment header.
   */
  function Assignments(envSettings: seq<(string, Spec)>): (r: seq<Stmt>)
    ensures EncodesSettings(r, envSettings)
    ensures forall i :: 0 <= i < |r| ==> Comments(r[i]) == HeaderFor(i)
  {
    seq(|envSettings|, i requires 0 <= i < |envSettings| => AssignmentAt(envSettings, i))
  }

  /**
   * The statement generated for the `i`-th entry: it reads back as that
   * entry and carries the `i`-th header.
   */
  function AssignmentAt(envSettings: seq<(string, Spec)>, i: nat): (r: Stmt)
    requires i < |envSettings|
    ensures DecodeStatement(r) == Some(envSettings[i])
    ensures Comments(r) == HeaderFor(i)
  {
    VariableAssignmentRoundTrip(envSettings[i].0, envSettings[i].1);
    Expression(VariableAssignment(envSettings[i].0, envSettings[i].1), HeaderFor(i))
  }

  /**
   * Appends one assignment per top-level settings entry, in order. Each
   * entry's run of single-entry composites is collapsed into a subscript
   * chain; only the first assignment carries the environment header.
   */
  method GenerateVariableCode(code: seq<Stmt>, envSettings: seq<(string, Spec)>) returns (out: seq<Stmt>)
    ensures |out| == |code| + |envSettings| && out[..|code|] == code
    ensures forall i :: 0 <= i < |envSettings| ==>
              out[|code| + i] == Expression(VariableAssignment(envSettings[i].0, envSettings[i].1), HeaderFor(i))
    ensures out == code + Assignments(envSettings)
    ensures EncodesSettings(out[|code|..], envSettings)
    ensures CountCommented(out[|code|..], EnvironmentHeader) == if envSettings == [] then 0 else 1
  {
    out := code;
    var first := true;
    var n := 0;
    while n < |envSettings|
      invariant 0 <= n <= |envSettings|
      invariant first <==> n == 0
      invariant |out| == |code| + n && out[..|code|] == code
      invariant forall i :: 0 <= i < n ==>
                  out[|code| + i] == Expression(VariableAssignment(envSettings[i].0, envSettings[i].1), HeaderFor(i))
    {
      var (name, value) := envSettings[n];
      var assignment := BuildAssignment(name, value);
      var comments: seq<Comment> := [];
      if first {
        first := false;
        comments := [EnvironmentHeader];
      }
      out := out + [Expression(assignment, comments)];
      n := n + 1;
    }
    assert out[|code|..] == Assignments(envSettings);
    assert out == out[..|code|] + out[|code|..];
    EnvironmentHeaderOnce(Assignments(envSettings));
  }

  /**
   * `code` is `template` followed by the include guard and then by one
   * assignment per settings entry that reads back as that entry. The guard
   * carries the generated and include headers, the first assignment alone
   * the environment header; so the generated header appears once and the
   * environment header once if there is any entry.
   */
  predicate GeneratedFrom(template: seq<Stmt>, code: seq<Stmt>, envSettings: seq<(string, Spec)>)
  {
    && |code| == |template| + 1 + |envSettings|
    && code[..|template|] == template
    && GuardedInclude(code[|template|]) == Some(CONFIG_FILE_NAME)
    && Comments(code[|template|]) == [GeneratedHeader, IncludeHeader]
    && EncodesSettings(code[|template| + 1..], envSettings)
    && (forall i :: 0 <= i < |envSettings| ==> Comments(code[|template| + 1..][i]) == HeaderFor(i))
    && (forall i :: 0 <= i < |envSettings| ==> AssignsSpineEnd(code[|template| + 1..][i], envSettings[i].1))
    && CountCommented(code[|template|..], GeneratedHeader) == 1
    && CountCommented(code[|template|..], EnvironmentHeader) == if envSettings == [] then 0 else 1
  }

  /** Where the template, the guard and the statements after it sit in the generated code. */
  lemma GuardLayout(template: seq<Stmt>, after: seq<Stmt>)
    ensures var code := InjectConfigLoader(template) + after;
            && |code| == |template| + 1 + |after|
            && code[..|template|] == template
            && code[|template|] == InjectConfigLoader(template)[|template|]
            && code[|template| + 1..] == after
            && code[|template|..] == [code[|template|]] + after
  {
    var t := |template|;
    var guarded := InjectConfigLoader(template);
    var code := guarded + after;
    assert code[t + 1..] == after;
    assert code[t..] == [guarded[t]] + after;
    assert code[..t] == guarded[..t];
  }

  /** `s` assigns what the collapsing of `v` stops at: a `getenv()` call or an array literal. */
  predicate AssignsSpineEnd(s: Stmt, v: Spec)
  {
    s.Expression? && s.expr.Assign? && DecodeValue(s.expr.value) == Some(Spine(v).1)
  }

  /**
   * In code that meets `GeneratedFrom`, every assignment's target is `$name`
   * subscripted by exactly the keys the collapsing loop unwraps, so no run
   * of single-entry arrays is left as a nested literal.
   */
  lemma GeneratedTargetsCollapse(template: seq<Stmt>, code: seq<Stmt>, envSettings: seq<(string, Spec)>, i: nat)
    requires GeneratedFrom(template, code, envSettings)
    requires i < |envSettings|
    ensures var s := code[|template| + 1..][i];
            s.Expression? && s.expr.Assign?
            && DecodeTarget(s.expr.target) == Some((envSettings[i].0, Spine(envSettings[i].1).0))
  {
    var s := code[|template| + 1..][i];
    var v := envSettings[i].1;
    assert DecodeStatement(s) == Some(envSettings[i]);
    assert AssignsSpineEnd(s, v);
    var target := DecodeTarget(s.expr.target).value;
    assert Nest(target.1, Spine(v).1) == v;
    SpineUnique(target.1, Spine(v).1);
  }

  /** For `{"db": {"host": "DB_HOST"}}`, the uncollapsed `$db = ['host' => getenv('DB_HOST')]` is not what gets written. */
  lemma UncollapsedAssignmentRejected()
    ensures !AssignsSpineEnd(
              Expression(Assign(Variable("db"), ArrayLit([Item(BuildGetEnvNode("DB_HOST"), Some(StringLit("host")))])),
                         [EnvironmentHeader]),
              Composite([(StrKey("host"), Leaf("DB_HOST"))]))
  {
    var v := Composite([(StrKey("host"), Leaf("DB_HOST"))]);
    assert IsSingleton(v);
    assert Spine(Leaf("DB_HOST")) == ([], Leaf("DB_HOST"));
    assert Spine(v).1 == Leaf("DB_HOST");
  }

  /** The include guard followed by the generated assignments meets `GeneratedFrom`. */
  lemma GuardThenAssignments(template: seq<Stmt>, envSettings: seq<(string, Spec)>)
    ensures GeneratedFrom(template, InjectConfigLoader(template) + Assignments(envSettings), envSettings)
  {
    var guard := InjectConfigLoader(template)[|template|];
    var assignments := Assignments(envSettings);
    GuardLayout(template, assignments);
    EnvironmentHeaderOnce(Assignments(envSettings));
    ProvenanceCounts(guard, assignments);
  }

  /**
   * Parses the template and, when that succeeds, appends the include guard
   * and then the variable assignments; a parse failure stops the run before
   * anything is written.
   */
  method Generate(parse: string -> Result<seq<Stmt>, string>, outputPath: string,
                  envSettings: seq<(string, Spec)>, templateSource: string)
    returns (outcome: Outcome)
    ensures parse(templateSource).Failure? <==> outcome.ParseFailed?
    ensures parse(templateSource).Success? <==> outcome.Written?
    ensures outcome.ParseFailed? ==>
              outcome.message == "Parse error: " + parse(templateSource).error + "\n"
    ensures outcome.Written? ==>
              && outcome.path == outputPath
              && GeneratedFrom(parse(templateSource).value, outcome.code, envSettings)
  {
    var parsed := parse(templateSource);
    if parsed.Failure? {
      return ParseFailed("Parse error: " + parsed.error + "\n");
    }
    var guarded := InjectConfigLoader(parsed.value);
    var code := GenerateVariableCode(guarded, envSettings);
    GuardThenAssignments(parsed.value, envSettings);
    outcome := Written(outputPath, code);
  }

  // ---------------------------------------------------------------------
  // The collapsing loop as written
  // ---------------------------------------------------------------------

  /**
   * A composite that the collapsing loop unwraps all the way down to a
   * leaf, such as `['host' => 'DB_HOST']`.
   */
  predicate CollapsesToLeaf(v: Spec)
  {
    v.Composite? && Spine(v).1.Leaf?
  }

  /**
   * The collapsing loop as written, continued from the keys `path` with the
   * value `value`. Its guard `count($value) == 1` is also applied to a string
   * that an unwrap left behind. Counting a string throws a `TypeError` from
   * PHP 8 on. Before PHP 8 it gives 1, the next unwrap gives a one-character
   * string again, and the loop never ends. Either way the loop produces
   * nothing, which is `None` here.
   */
  function UnwrapAsWritten(path: seq<Key>, value: Spec): (r: Option<(seq<Key>, Spec)>)
    ensures r.Some? ==> r.value.1.Composite? && |r.value.1.entries| != 1
    ensures r.Some? ==> |path| <= |r.value.0| && r.value.0[..|path|] == path
    ensures r.Some? ==> Nest(r.value.0[|path|..], r.value.1) == value
    decreases value
  {
    match value
    case Leaf(_) => None
    case Composite(entries) =>
      if |entries| == 1 then
        var inner := UnwrapAsWritten(path + [entries[0].0], entries[0].1);
        if inner.Some? then
          var (keys, rest) := inner.value;
          assert keys[..|path|] == (path + [entries[0].0])[..|path|] == path;
          assert keys[|path|..] == [entries[0].0] + keys[|path| + 1..];
          assert [(entries[0].0, entries[0].1)] == entries;
          inner
        else inner
      else
        assert path[|path|..] == [];
        Some((path, value))
  }

  /**
   * The loop as written fails exactly when the spine ends in a leaf, and
   * otherwise stops where the spine ends.
   */
  lemma {:induction false} UnwrapAsWrittenSpine(path: seq<Key>, value: Spec)
    ensures UnwrapAsWritten(path, value)
            == if Spine(value).1.Leaf? then None else Some((path + Spine(value).0, Spine(value).1))
    decreases value
  {
    var r := UnwrapAsWritten(path, value);
    if r.Some? {
      var (keys, rest) := r.value;
      SpineUnique(keys[|path|..], rest);
      assert path + keys[|path|..] == keys;
    } else if IsSingleton(value) {
      var (k, inner) := value.entries[0];
      UnwrapAsWrittenSpine(path + [k], inner);
    }
  }

  /**
   * The collapsing loop as written, for one entry's value: a composite enters
   * the loop, and a top-level leaf skips it. The loop fails exactly on a
   * composite that unwraps down to a leaf, and otherwise stops where the
   * intended loop does.
   */
  function CollapseAsWritten(v: Spec): (r: Option<(seq<Key>, Spec)>)
    ensures r.None? <==> CollapsesToLeaf(v)
    ensures r.None? <==> |Spine(v).0| > 0 && Spine(v).1.Leaf?
    ensures r.Some? ==> r.value == Spine(v)
  {
    if v.Composite? then
      UnwrapAsWrittenSpine([], v);
      assert [] + Spine(v).0 == Spine(v).0;
      UnwrapAsWritten([], v)
    else Some(([], v))
  }

  /** The assignment for the entry `name => v` as written: none when the loop fails. */
  function AssignmentAsWritten(name: string, v: Spec): (r: Option<Expr>)
    ensures r.None? <==> CollapsesToLeaf(v)
    ensures r.Some? ==> r.value == VariableAssignment(name, v)
  {
    if v.Composite? then
      var collapsed := CollapseAsWritten(v);
      if collapsed.None? then None
      else Some(Assign(DimChain(Variable(name), collapsed.value.0), AssignedValue(collapsed.value.1)))
    else Some(Assign(Variable(name), BuildGetEnvNode(v.envVar)))
  }

  /** Some entry from the `n`-th on unwraps down to a leaf. */
  predicate AnyCollapsesToLeaf(envSettings: seq<(string, Spec)>, n: nat)
  {
    exists i :: n <= i < |envSettings| && CollapsesToLeaf(envSettings[i].1)
  }

  /**
   * The entry loop as written, from entry `n` on: the statements it appends,
   * or nothing as soon as one entry's collapsing fails. When it succeeds, it
   * has appended the intended assignment of every remaining entry, in order.
   */
  function AssignmentsAsWritten(envSettings: seq<(string, Spec)>, n: nat): (r: Option<seq<Stmt>>)
    requires n <= |envSettings|
    ensures r.Some? ==> |r.value| == |envSettings| - n
    ensures r.Some? ==> forall i :: n <= i < |envSettings| ==> r.value[i - n] == AssignmentAt(envSettings, i)
    decreases |envSettings| - n
  {
    if n == |envSettings| then Some([])
    else
      var assignment := AssignmentAsWritten(envSettings[n].0, envSettings[n].1);
      var rest := AssignmentsAsWritten(envSettings, n + 1);
      if assignment.None? || rest.None? then None
      else
        assert Expression(assignment.value, HeaderFor(n)) == AssignmentAt(envSettings, n);
        PrependAssignment(envSettings, n, rest.value);
        Some([Expression(assignment.value, HeaderFor(n))] + rest.value)
  }

  /** The `n`-th assignment in front of the assignments from `n + 1` on gives those from `n` on. */
  lemma PrependAssignment(envSettings: seq<(string, Spec)>, n: nat, rest: seq<Stmt>)
    requires n < |envSettings| && |rest| == |envSettings| - n - 1
    requires forall i :: n + 1 <= i < |envSettings| ==> rest[i - (n + 1)] == AssignmentAt(envSettings, i)
    ensures forall i :: n <= i < |envSettings| ==> ([AssignmentAt(envSettings, n)] + rest)[i - n] == AssignmentAt(envSettings, i)
  {
  }

  /** The entry loop as written fails exactly when some remaining entry unwraps down to a leaf. */
  lemma {:induction false} AssignmentsAsWrittenFails(envSettings: seq<(string, Spec)>, n: nat)
    requires n <= |envSettings|
    ensures AssignmentsAsWritten(envSettings, n).None? <==> AnyCollapsesToLeaf(envSettings, n)
    decreases |envSettings| - n
  {
    if n < |envSettings| {
      var assignment := AssignmentAsWritten(envSettings[n].0, envSettings[n].1);
      var rest := AssignmentsAsWritten(envSettings, n + 1);
      assert AssignmentsAsWritten(envSettings, n).None? <==> assignment.None? || rest.None?;
      AssignmentsAsWrittenFails(envSettings, n + 1);
      if AnyCollapsesToLeaf(envSettings, n) && !CollapsesToLeaf(envSettings[n].1) {
        var i :| n <= i < |envSettings| && CollapsesToLeaf(envSettings[i].1);
        assert n + 1 <= i;
      }
      if AnyCollapsesToLeaf(envSettings, n + 1) {
        var i :| n + 1 <= i < |envSettings| && CollapsesToLeaf(envSettings[i].1);
        assert n <= i;
      }
    }
  }

  /**
   * `generate` as written: as `Generate` when every entry's collapsing
   * succeeds, but aborted, with nothing written, as soon as one entry's
   * value unwraps down to a leaf.
   */
  function GenerateAsWritten(parse: string -> Result<seq<Stmt>, string>, outputPath: string,
                             envSettings: seq<(string, Spec)>, templateSource: string)
    : (r: Outcome)
    ensures parse(templateSource).Failure? <==> r.ParseFailed?
    ensures r.ParseFailed? ==> r.message == "Parse error: " + parse(templateSource).error + "\n"
    ensures r.Aborted? <==> parse(templateSource).Success? && AnyCollapsesToLeaf(envSettings, 0)
    ensures r.Written? ==>
              && r.path == outputPath
              && GeneratedFrom(parse(templateSource).value, r.code, envSettings)
  {
    var parsed := parse(templateSource);
    if parsed.Failure? then ParseFailed("Parse error: " + parsed.error + "\n")
    else
      var assignments := AssignmentsAsWritten(envSettings, 0);
      AssignmentsAsWrittenFails(envSettings, 0);
      if assignments.None? then Aborted
      else
        assert assignments.value == Assignments(envSettings);
        GuardThenAssignments(parsed.value, envSettings);
        Written(outputPath, InjectConfigLoader(parsed.value) + assignments.value)
  }

  /**
   * `{"db": {"host": "DB_HOST"}}`: the intended loop assigns
   * `$db['host'] = getenv('DB_HOST')`, but as written the run aborts.
   */
  lemma CollapsedLeafAborts(parse: string -> Result<seq<Stmt>, string>, outputPath: string,
                            templateSource: string)
    requires parse(templateSource).Success?
    ensures VariableAssignment("db", Composite([(StrKey("host"), Leaf("DB_HOST"))]))
            == Assign(ArrayDimFetch(Variable("db"), Some(StringLit("host"))), BuildGetEnvNode("DB_HOST"))
    ensures CollapseAsWritten(Composite([(StrKey("host"), Leaf("DB_HOST"))])) == None
    ensures GenerateAsWritten(parse, outputPath, [("db", Composite([(StrKey("host"), Leaf("DB_HOST"))]))],
                              templateSource) == Aborted
  {
    var v := Composite([(StrKey("host"), Leaf("DB_HOST"))]);
    assert IsSingleton(v);
    assert Spine(Leaf("DB_HOST")) == ([], Leaf("DB_HOST"));
    assert Spine(v) == ([StrKey("host")] + [], Leaf("DB_HOST"));
    assert [("db", v)][0].1 == v;
    assert KeyNode(StrKey("host")) == Some(StringLit("host"));
    assert DimChain(Variable("db"), [StrKey("host")])
           == DimChain(ArrayDimFetch(Variable("db"), KeyNode(StrKey("host"))), []);
  }
}
