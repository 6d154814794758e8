# drupal-env-settings: settings tree builder, modelled in Dafny

This project models the core of `drupal-env-settings`, a Composer plugin that writes a Drupal
`settings.php`. The plugin does not substitute text. It parses an existing configuration
template into a PHP syntax tree and appends two things to it:

- an include guard, `if (file_exists('../config.php')) include_once '../config.php';`, which
  carries the "autogenerated" and "load dynamic configuration" doc comments;
- one assignment per top-level entry of a nested mapping from setting names to
  environment-variable names.

Each assignment's right-hand side comes from `getenv()` lookups. A run of single-entry nested
arrays is meant to collapse into a subscript chain such as `$db['host'] = getenv('DB_HOST');`.
As written, the collapsing loop cannot end on a string, so such an entry aborts the run
(see "## Findings"). The model keeps both versions: the loop as written, and the intended loop,
which the rest of the model uses. A multi-entry array becomes a nested array literal, and
nothing inside that literal is collapsed. Keys go through a small scalar encoder.

The second part modelled is the `.env` generator's text assembly. It writes `KEY=VALUE` lines,
joined by newlines, after a template file's text or after a fixed header comment.

Files:

- `wrappers.dfy`: `Option` and `Result`.
- `php_ast.dfy`: the PHP values that `gettype()` classifies, and the expression and statement
  nodes the builder creates. The three fixed doc comments are here as `Comment`.
  `LiteralValue` evaluates a scalar literal.
- `env_settings.dfy`: the settings mapping (`Spec = Leaf | Composite`). It also holds the
  decomposition of a value into its run of single-entry composites (`Spine`) and that run's
  inverse (`Nest`).
- `settings_decoder.dfy`: reads a generated assignment back as the settings entry it encodes.
  This is the inverse the builder is proved against.
- `settings_generator.dfy`: `getAsScaler`, `buildGetEnvNode`, `buildArrayItems`,
  `injectConfigLoader`, the collapsing loop, `generateVariableCode` and `generate`. Each of the
  last three comes in two versions: the intended one, and the one as written.
- `text.dfy`: PHP's `implode` with one separator, and the split that undoes it.
- `dotenv_generator.dfy`: the `.env` text assembly.

The template parser is a parameter, `parse: string -> Result<seq<Stmt>, string>`. A failure
carries the parser's message. Statements that come from the template are opaque. A successful
run's result is `Written(outputPath, code)`. `code` is the tree that would be printed and
written to `outputPath`. `Aborted` is a run that ends before the write, by an uncaught error or
by a loop that never ends.

## Model

| member | source | states |
|---|---|---|
| `EnvSettings.Spine` | src/SettingsGenerator/SettingsGenerator.php:137-152 | The intended collapsing loop splits an entry's value into the keys it unwraps and the value it stops at. The stopping value is never a single-entry array. A top-level leaf is left as it is. Re-nesting the value under the keys rebuilds the original entry value. The loop as written does not stop on a leaf it reaches by unwrapping; see `SettingsGenerator.CollapseAsWritten`. |
| `EnvSettings.SpineUnique` | src/SettingsGenerator/SettingsGenerator.php:139-152 | The intended loop stops exactly when the value is a leaf, which the `!is_array` branch at line 149 expects, or an array whose count is not 1. Any key path and non-single-entry value that re-nest to an entry are exactly what that loop produces. |
| `SettingsGenerator.CollapseTarget` | src/SettingsGenerator/SettingsGenerator.php:136-147 | The intended loop, which also stops at a leaf. It adds one subscript, keyed by `getAsScaler(key)`, for each single-entry array it unwraps, outermost first. It ends with the target `$name[k1]...[kn]` and the remaining value, which is not a single-entry array. |
| `SettingsGenerator.UnwrapAsWritten` | src/SettingsGenerator/SettingsGenerator.php:139-147 | The loop as written, continued from the keys `path`. When it stops, it stops on an array whose count is not 1, and the keys it has collected extend `path`. Re-nesting the value it stopped at under the keys it added rebuilds the value it started from. It gives nothing when the unwrapping reaches a string (`UnwrapAsWrittenSpine` states exactly when). |
| `SettingsGenerator.UnwrapAsWrittenSpine` | src/SettingsGenerator/SettingsGenerator.php:139-147 | The loop as written, with guard `count($value) == 1`, fails exactly when the unwrapping reaches a leaf. Counting a string throws from PHP 8 on, and before PHP 8 the loop never ends. On every other value it stops with the same keys and value as the intended loop. |
| `SettingsGenerator.CollapseAsWritten` | src/SettingsGenerator/SettingsGenerator.php:137-147 | For one entry, the loop as written fails exactly when the value is an array that unwraps down to a leaf, that is, when the spine is non-empty and ends in a leaf. Otherwise it gives exactly the spine. A top-level leaf does not enter the loop. |
| `SettingsGenerator.AssignmentAsWritten` | src/SettingsGenerator/SettingsGenerator.php:136-170 | The assignment as written exists exactly when the entry does not unwrap down to a leaf. When it exists, it is the intended assignment. |
| `SettingsGenerator.AssignmentsAsWrittenFails` | src/SettingsGenerator/SettingsGenerator.php:135-177 | The entry loop as written fails exactly when some entry unwraps down to a leaf. |
| `SettingsGenerator.AssignmentsAsWritten` | src/SettingsGenerator/SettingsGenerator.php:135-177 | The entry loop as written, from entry `n` on. When it succeeds, it appends exactly one statement per remaining entry, in order, and the `i`-th is `AssignmentAt(envSettings, i)`: the intended assignment with the intended header. It fails exactly when some remaining entry unwraps down to a leaf (`AssignmentsAsWrittenFails`). |
| `SettingsGenerator.GenerateAsWritten` | src/SettingsGenerator/SettingsGenerator.php:69-96 | `generate` as written. It fails with the parse message exactly when parsing fails. It aborts, writing nothing, exactly when parsing succeeds and some entry unwraps down to a leaf. `generateVariableCode` (line 85) runs outside the `try` at lines 73-79, so the `TypeError` escapes `generate`. Otherwise it writes a tree that meets `GeneratedFrom`. |
| `SettingsGenerator.CollapsedLeafAborts` | src/SettingsGenerator/SettingsGenerator.php:139-152 | On `{"db": {"host": "DB_HOST"}}`, the intended loop assigns `$db['host'] = getenv('DB_HOST')`. The loop as written fails, and `generate` as written aborts for any template that parses. |
| `SettingsGenerator.AssignedValue` | src/SettingsGenerator/SettingsGenerator.php:149-162 | A leaf gives its `getenv` call, and an array gives an array literal with one item per entry. Either reads back through the decoder as exactly the value. |
| `SettingsGenerator.VariableAssignment` | src/SettingsGenerator/SettingsGenerator.php:136-170 | The intended assignment for one entry. Its value reads back as what the intended loop stopped at. An entry that is not a single-entry array keeps the bare `$name` target. A top-level leaf gives `$name = getenv(...)`. |
| `SettingsGenerator.BuildAssignment` | src/SettingsGenerator/SettingsGenerator.php:136-170 | Builds the intended assignment for one entry. A top-level leaf keeps the bare `$name` target and assigns `getenv`. Otherwise the collapsed target gets `getenv` when the intended loop stopped at a leaf, and `buildArrayItems` when an array remains. |
| `SettingsGenerator.VariableAssignmentRoundTrip` | src/SettingsGenerator/SettingsGenerator.php:136-170 | Every generated assignment decodes back to exactly the `(name, value)` entry it came from, so the variable, key path, key types and leaves are all preserved. |
| `SettingsGenerator.DimChainRoundTrip` | src/SettingsGenerator/SettingsGenerator.php:139-145 | A chain of subscripts built from encoded keys decodes back to the variable name and the keys in order. |
| `SettingsGenerator.GetAsScaler` | src/SettingsGenerator/SettingsGenerator.php:197-209 | The intended encoder. Floats, integers and strings give a literal that evaluates to the same value. A boolean gives the integer literal 1 or 0. No other type gives a node. |
| `SettingsGenerator.GetAsScalerAsWritten` | src/SettingsGenerator/SettingsGenerator.php:197-209 | The encoder as written, which dispatches on the type name `'float'`. Only booleans, integers and strings give a node, and on those it agrees with `GetAsScaler`. |
| `SettingsGenerator.FloatKeyDropped` | src/SettingsGenerator/SettingsGenerator.php:198-200 | For the float 1.5, the as-written encoder gives no node, but the intended one gives `DNumber(1.5)`. |
| `SettingsGenerator.AsWrittenAgreesOnKeys` | src/SettingsGenerator/SettingsGenerator.php:144 | For every array key (integer or string), the as-written and intended encoders give the same node, and that node exists. |
| `SettingsGenerator.BuildGetEnvNode` | src/SettingsGenerator/SettingsGenerator.php:183-192 | Returns a call to `getenv` with exactly one argument, a string literal equal to the input; the decoder reads that call back as a leaf naming the same variable. |
| `SettingsGenerator.BuildArrayItems` | src/SettingsGenerator/SettingsGenerator.php:214-226 | Returns an array literal with one item per entry, in order, each keyed by `getAsScaler(key)`. A leaf becomes `buildGetEnvNode`. A nested array, even a single-entry one, becomes a nested literal with as many items as it has entries, so nothing is collapsed. An empty input gives an empty literal. |
| `SettingsGenerator.BuildArrayItemsRoundTrip` | src/SettingsGenerator/SettingsGenerator.php:214-226 | An array literal built from some entries decodes back to exactly those entries: same keys, same order, same nesting. |
| `SettingsGenerator.InjectConfigLoader` | src/SettingsGenerator/SettingsGenerator.php:101-128 | Appends exactly one statement and leaves the earlier statements unchanged and in order. The new statement tests `file_exists` of `'../config.php'`, and its body is a single `include_once` of the same path. Its comments are exactly [generated, include]. |
| `SettingsGenerator.EnvironmentHeaderOnce` | src/SettingsGenerator/SettingsGenerator.php:171-176 | When only the first of the statements carries the environment header, the header is counted once for a non-empty list and zero times for an empty one. |
| `SettingsGenerator.ProvenanceCounts` | src/SettingsGenerator/SettingsGenerator.php:121-126 | Across the include guard and the assignments after it, the generated header appears exactly once. The environment header appears exactly as often as it does among the assignments. |
| `SettingsGenerator.AssignmentAt` | src/SettingsGenerator/SettingsGenerator.php:136-176 | The statement for the `i`-th entry reads back, through the independent decoder, as exactly that entry, and carries the `i`-th header: [environment] for the first entry and nothing after it. |
| `SettingsGenerator.Assignments` | src/SettingsGenerator/SettingsGenerator.php:135-177 | The intended assignments for all entries read back, one by one and in order, as the entries, and the `i`-th carries the `i`-th header. `GenerateVariableCode` appends exactly this sequence. |
| `SettingsGenerator.GenerateVariableCode` | src/SettingsGenerator/SettingsGenerator.php:133-177 | The intended entry loop, using the intended collapsing loop. It appends exactly one assignment per top-level entry, in mapping order, and leaves the existing prefix unchanged. Each assignment decodes back to its entry. Only the first carries [environment] and the rest carry none, so the environment header appears once for a non-empty mapping and never for an empty one. |
| `SettingsGenerator.GeneratedTargetsCollapse` | src/SettingsGenerator/SettingsGenerator.php:136-170 | In any tree that meets `GeneratedFrom`, the `i`-th assignment's target decodes to `$name` subscripted by exactly the keys the collapsing loop unwraps. A run of single-entry arrays therefore always becomes a subscript chain, never a nested literal. |
| `SettingsGenerator.GuardThenAssignments` | src/SettingsGenerator/SettingsGenerator.php:81-85 | The result is ordered as: template statements unchanged, then the include guard, then the assignments. The guard carries exactly [generated, include] and the `i`-th assignment exactly the `i`-th header, so [environment] sits on the first assignment alone. |
| `SettingsGenerator.Generate` | src/SettingsGenerator/SettingsGenerator.php:69-96 | `generate` with the intended collapsing loop. A run fails exactly when parsing fails, and otherwise writes. A failed run reports `Parse error: <message>` and writes nothing. A successful run writes to the output path a tree that meets `GeneratedFrom`. That fixes the order, each statement's comments, the decoding of every assignment, and its right-hand side, which is what the collapsing stops at. |
| `DotEnvGenerator.ParseFormatLine` | src/ConfigGenerator/DotEnvGenerator.php:13 | A `'%s=%s'` line splits at its first `=` back into the key and value, provided the key contains no `=`. |
| `DotEnvGenerator.Lines` | src/ConfigGenerator/DotEnvGenerator.php:41-44 | Produces exactly one line per variable, in order. Each line contains `=`, and parses back to its key and value when the key holds no `=`. |
| `Text.Join` | src/ConfigGenerator/DotEnvGenerator.php:45 | `implode` of no parts is `""`. It starts with the first part, and when there is a second part, the separator comes straight after the first. |
| `Text.SplitJoin` | src/ConfigGenerator/DotEnvGenerator.php:45 | Joining one or more separator-free lines with a single `"\n"` adds no trailing separator, and splitting the result on `"\n"` gives back exactly those lines. |
| `DotEnvGenerator.SnippetRoundTrip` | src/ConfigGenerator/DotEnvGenerator.php:41-45 | The snippet (one `KEY=VALUE` line per variable, joined by `"\n"`) reads back as exactly the variables, in order, provided keys contain no `=` or newline and values contain no newline. |
| `DotEnvGenerator.IsEmpty` | src/ConfigGenerator/DotEnvGenerator.php:49 | PHP `empty()` on the template option: an unset option and `""` are empty. A one-character path is empty exactly when it is `"0"`, and every longer path is non-empty. |
| `DotEnvGenerator.Prefix` | src/ConfigGenerator/DotEnvGenerator.php:47-54 | With a non-empty template path, the text is that file's contents. With an unset, `""` or `"0"` path, it is `TEMPLATE_SOURCE` and no file is read. |
| `DotEnvGenerator.Assemble` | src/ConfigGenerator/DotEnvGenerator.php:57 | Appending `"\n" . snippet . "\n"` keeps the prefix and puts exactly the snippet between the newline after the prefix and the final newline. |
| `DotEnvGenerator.Generate` | src/ConfigGenerator/DotEnvGenerator.php:41-57 | The output starts with the template text verbatim, or with `TEMPLATE_SOURCE` when no template path is given (PHP `empty()`: unset, `""` or `"0"`). A newline follows the prefix, and the output always ends in a newline. With no variables, the output is the prefix followed by `"\n\n"`. For plain variables, the text between the newline after the prefix and the final newline reads back as exactly the variables, in order. |

## Left out

- Parsing and printing use PHP-Parser and its `PrettyPrinter`, a foreign library. `parse` is a function parameter, template statements are opaque, and the printed text is not modelled.
- Filesystem effects are I/O and are not modelled. This covers the `file_exists`/`mkdir` of the output directory and the `file_put_contents` in `generate` (src/SettingsGenerator/SettingsGenerator.php:88-95). The `Written` outcome records only the target path and the tree that would be printed there. The `echo` at line 77 is represented only by the outcome's message.
- In the `.env` generator, Symfony option registration and lookup (src/ConfigGenerator/DotEnvGenerator.php:25-38) are framework glue. The `template` option is an `Option<string>` argument, and `file_get_contents` is a `readFile` function parameter. The final `file_put_contents` (line 60) and the `out-file` option are not modelled.
- src/CommandProvider.php only registers command objects and is not part of this model.
- Array keys are integers or strings, which is what PHP's runtime key coercion leaves. The model does not apply that coercion, so `StrKey("5")` is representable although PHP would store the key as `5`. A composite is an ordered list of entries, so duplicate keys are representable although PHP arrays cannot hold them. No property here depends on either.
- Top-level setting names are strings, and leaf values are strings. PHP would also accept an integer top-level key as a variable name, or a non-string leaf passed to `getenv`.
- An empty nested array is not rejected. The collapsing loop stops on it because its count is 0, and `buildArrayItems([])` produces `[]`. The model follows that code.
- `GetAsScaler`: floats are modelled as mathematical reals, not IEEE doubles.
- `SpineUnique`: holds for the intended collapsing loop, which stops at a leaf. The loop as written does not stop there; `UnwrapAsWrittenSpine` and `CollapseAsWritten` state what it does (see "## Findings").
- `CollapseTarget`: models the intended loop. The guard as written, `count($value) == 1`, is modelled by `CollapseAsWritten`, which fails where this method stops at a leaf.
- `BuildAssignment`: its collapsed-leaf branch (lines 149-152) is reached only with the intended loop. As written, that entry has no assignment; see `AssignmentAsWritten`.
- `GenerateVariableCode`: "one assignment per entry" holds for the intended loop. As written, an entry that unwraps down to a leaf stops the loop; see `AssignmentsAsWrittenFails`.
- `Generate`: "fails exactly when parsing fails" holds for the intended loop. As written, the run also aborts when some entry unwraps down to a leaf; see `GenerateAsWritten`.
- `GenerateAsWritten`: a `TypeError` from PHP 8 and an endless loop before PHP 8 are both `Aborted`. The warnings PHP 7 prints, and the memory it exhausts, are not modelled.
- `DotEnvGenerator.Lines`: a line whose key holds `=` is not read back, since `sprintf` writes `a=b=c` for `("a=b", "c")` and the `.env` format cannot tell it from `("a", "b=c")`.
- `DotEnvGenerator.Generate`: for keys holding `=` or a newline, and for values holding a newline, the text between the newlines is not read back. `sprintf` writes such variables verbatim, and the `.env` format cannot tell them apart.
- `FuncCall` arguments are bare expressions. PHP-Parser's `Arg` wrapper carries only by-reference and unpack flags, which are always off here.

## Findings

| source | as written | input that shows it | evidently intended | confidence | as-written member | corrected member |
|---|---|---|---|---|---|---|
| src/SettingsGenerator/SettingsGenerator.php:198-200 | `switch (gettype($value))` has `case 'float'`, but `gettype()` reports `"double"` for floats. A float falls through every case and the function returns `NULL`. | `getAsScaler(1.5)` | `new DNumber(1.5)`, a float literal of the same value | high; not executed | `SettingsGenerator.GetAsScalerAsWritten` (with `SettingsGenerator.FloatKeyDropped`) | `SettingsGenerator.GetAsScaler` |
| src/SettingsGenerator/SettingsGenerator.php:139 | `while (count($value) == 1)` also runs after an unwrap has left a string in `$value`. From PHP 8 on, `count()` of a string throws a `TypeError`, which escapes `generate` because `generateVariableCode` (line 85) runs outside the `try` at lines 73-79. Before PHP 8 it returns 1, the next unwrap gives `"D"`, and the loop never ends. The `!is_array($value)` branch at lines 149-152 is never reached after an unwrap. | `{"db": {"host": "DB_HOST"}}` | `$db['host'] = getenv('DB_HOST');`: the loop stops at a leaf, as the branch at lines 149-152 expects | high; not executed | `SettingsGenerator.GenerateAsWritten` (with `SettingsGenerator.UnwrapAsWritten`, `SettingsGenerator.CollapseAsWritten`, `SettingsGenerator.AssignmentsAsWritten` and `SettingsGenerator.CollapsedLeafAborts`) | `SettingsGenerator.Generate` (with `SettingsGenerator.CollapseTarget` and `EnvSettings.SpineUnique`) |

The `getAsScaler` discrepancy cannot show in generated settings, because the array keys that reach the encoder from `generateVariableCode` and `buildArrayItems` are never floats. `SettingsGenerator.AsWrittenAgreesOnKeys` proves this. The collapsing-loop discrepancy does show: any entry that is an array unwrapping down to a leaf stops the whole run, and `SettingsGenerator.AssignmentsAsWrittenFails` states exactly which inputs do so.
