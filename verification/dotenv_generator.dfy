/**
 * The `.env` generator: `KEY=VALUE` lines appended to a template text or
 * to a fixed header comment.
 */
module DotEnvGenerator {
  import opened Wrappers
  import opened Text

  /** Header used when no template file is given. */
  const TEMPLATE_SOURCE: string := "# Drupal environmental configuration."

  /** One `KEY=VALUE` line, as the `'%s=%s'` line template formats it. */
  function FormatLine(envVar: string, value: string): string
  {
    envVar + "=" + value
  }

  /**
   * A `KEY=VALUE` line read back: the text before and after its first `=`,
   * or nothing for a line without `=`.
   */
  function ParseLine(line: string): (r: Option<(string, string)>)
    ensures r.Some? <==> '=' in line
    ensures r.Some? ==> '=' !in r.value.0 && FormatLine(r.value.0, r.value.1) == line
  {
    if |line| == 0 then None
    else if line[0] == '=' then Some(("", line[1..]))
    else
      assert line == [line[0]] + line[1..];
      var rest := ParseLine(line[1..]);
      if rest.None? then None
      else Some(([line[0]] + rest.value.0, rest.value.1))
  }

  /** A line reads back as its key and value when the key holds no `=`. */
  lemma {:induction false} ParseFormatLine(envVar: string, value: string)
    requires '=' !in envVar
    ensures ParseLine(FormatLine(envVar, value)) == Some((envVar, value))
  {
    if envVar == [] {
      assert FormatLine(envVar, value)[1..] == value;
    } else {
      assert FormatLine(envVar, value)[1..] == FormatLine(envVar[1..], value);
      ParseFormatLine(envVar[1..], value);
      assert [envVar[0]] + envVar[1..] == envVar;
    }
  }

  /** One formatted line per variable, in order. */
  function Lines(variables: seq<(string, string)>): (r: seq<string>)
    ensures |r| == |variables|
    ensures forall i :: 0 <= i < |variables| && '=' !in variables[i].0 ==> ParseLine(r[i]) == Some(variables[i])
    ensures forall i :: 0 <= i < |variables| ==> '=' in r[i]
  {
    var lines := seq(|variables|, i requires 0 <= i < |variables| => FormatLine(variables[i].0, variables[i].1));
    forall i | 0 <= i < |variables| && '=' !in variables[i].0
      ensures ParseLine(lines[i]) == Some(variables[i])
    {
      ParseFormatLine(variables[i].0, variables[i].1);
    }
    forall i | 0 <= i < |variables|
      ensures '=' in lines[i]
    {
      assert lines[i][|variables[i].0|] == '=';
    }
    lines
  }

  /**
   * PHP's `empty()` on an optional path: unset, `""` and `"0"` are empty.
   * Every path of two or more characters is non-empty, whatever it holds.
   */
  function IsEmpty(path: Option<string>): (r: bool)
    ensures path.None? || path.value == "" ==> r
    ensures path.Some? && |path.value| == 1 ==> (r <==> path.value[0] == '0')
    ensures path.Some? && |path.value| >= 2 ==> !r
  {
    path.None? || path.value == "" || path.value == "0"
  }

  /**
   * The text the output starts with: the template file's contents when a
   * non-empty path is given, and the fixed header otherwise, so the file is
   * never read for an unset, `""` or `"0"` path.
   */
  function Prefix(template: Option<string>, readFile: string -> string): (r: string)
    ensures IsEmpty(template) ==> r == TEMPLATE_SOURCE
    ensures template.Some? && !IsEmpty(template) ==> r == readFile(template.value)
  {
    if !IsEmpty(template) then readFile(template.value) else TEMPLATE_SOURCE
  }

  /**
   * The generated `.env` text: the prefix, a newline, the variable lines
   * joined by newlines, and a final newline. `readFile` stands for reading
   * the template file.
   */
  function Generate(template: Option<string>, readFile: string -> string,
                    variables: seq<(string, string)>): (r: string)
    ensures var p := Prefix(template, readFile);
            && |r| >= |p| + 2
            && r[..|p|] == p
            && r[|p|] == '\n'
            && r[|r| - 1] == '\n'
            && (variables == [] ==> r == p + "\n\n")
    ensures IsEmpty(template) ==> r[..|TEMPLATE_SOURCE|] == TEMPLATE_SOURCE
    ensures var p := Prefix(template, readFile);
            Plain(variables) ==> ParseSnippet(r[|p| + 1..|r| - 1]) == Some(variables)
  {
    var snippet := Join(Lines(variables), '\n');
    assert Plain(variables) ==> ParseSnippet(snippet) == Some(variables) by {
      if Plain(variables) {
        SnippetRoundTrip(variables);
      }
    }
    Assemble(Prefix(template, readFile), snippet)
  }

  /** `prefix`, a newline, `snippet` and a final newline. */
  function Assemble(prefix: string, snippet: string): (r: string)
    ensures |r| == |prefix| + |snippet| + 2
    ensures r[..|prefix|] == prefix && r[|prefix|] == '\n' && r[|r| - 1] == '\n'
    ensures r[|prefix| + 1..|r| - 1] == snippet
  {
    prefix + "\n" + snippet + "\n"
  }

  /**
   * The `KEY=VALUE` pairs of a snippet of newline-separated lines, or
   * nothing when some line holds no `=`.
   */
  function ParseSnippet(snippet: string): Option<seq<(string, string)>>
  {
    if snippet == "" then Some([])
    else
      var lines := Split(snippet, '\n');
      if forall i :: 0 <= i < |lines| ==> ParseLine(lines[i]).Some? then
        Some(seq(|lines|, i requires 0 <= i < |lines| => ParseLine(lines[i]).value))
      else None
  }

  /** Keys hold neither `=` nor a newline, values no newline. */
  predicate Plain(variables: seq<(string, string)>)
  {
    forall i :: 0 <= i < |variables| ==>
      '=' !in variables[i].0 && '\n' !in variables[i].0 && '\n' !in variables[i].1
  }

  /** The joined lines read back as exactly the variables, in order, when they are plain. */
  lemma SnippetRoundTrip(variables: seq<(string, string)>)
    requires Plain(variables)
    ensures ParseSnippet(Join(Lines(variables), '\n')) == Some(variables)
  {
    var lines := Lines(variables);
    if variables != [] {
      forall i | 0 <= i < |lines|
        ensures '\n' !in lines[i]
      {
        assert lines[i] == variables[i].0 + "=" + variables[i].1;
      }
      SplitJoin(lines, '\n');
      assert Join(lines, '\n') != "" by {
        assert '=' in lines[0];
      }
      var split := Split(Join(lines, '\n'), '\n');
      assert split == lines;
      assert forall i :: 0 <= i < |split| ==> ParseLine(split[i]) == Some(variables[i]);
      assert seq(|split|, i requires 0 <= i < |split| => ParseLine(split[i]).value) == variables;
    }
  }
}
