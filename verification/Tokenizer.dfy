/** Template pipelines: their segments, identifier spelling, and evaluation. */
module Tokenizer {
  import opened Wrappers

  datatype Segment =
    | Literal(value: string)
    | Token(name: string)
    | Transform(name: string)
    | RegexPreset(name: string)

  type Pipeline = seq<Segment>

  datatype TokenError =
    | UnknownToken(name: string)
    | UnknownTransform(raw: string)
    | UnknownRegexPreset(name: string)
    | InvalidTransform(raw: string)

  // ---- characters ----

  predicate IsUpper(c: char) { 'A' <= c <= 'Z' }

  predicate IsAlpha(c: char) { IsUpper(c) || 'a' <= c <= 'z' }

  predicate IsAlnum(c: char) { IsAlpha(c) || '0' <= c <= '9' }

  function Lower(c: char): char {
    if IsUpper(c) then (c as int + 32) as char else c
  }

  /** The characters with the Unicode White_Space property. */
  predicate IsSpace(c: char) {
    || '\U{9}' <= c <= '\U{D}' || c == ' ' || c == '\U{85}' || c == '\U{A0}' || c == '\U{1680}'
    || '\U{2000}' <= c <= '\U{200A}' || c == '\U{2028}' || c == '\U{2029}' || c == '\U{202F}'
    || c == '\U{205F}' || c == '\U{3000}'
  }

  function TrimStart(s: string): (t: string)
    ensures t == [] || !IsSpace(t[0])
  {
    if s != [] && IsSpace(s[0]) then TrimStart(s[1..]) else s
  }

  function TrimEnd(s: string): (t: string)
    ensures t <= s
    ensures t == [] || !IsSpace(t[|t| - 1])
  {
    if s != [] && IsSpace(s[|s| - 1]) then TrimEnd(s[..|s| - 1]) else s
  }

  function Trim(s: string): (t: string)
    ensures t == [] || (!IsSpace(t[0]) && !IsSpace(t[|t| - 1]))
  {
    TrimEnd(TrimStart(s))
  }

  lemma TrimTwice(s: string)
    ensures Trim(Trim(s)) == Trim(s)
  {
  }

  /** Position of the first `c` in `s`, or the length of `s`. */
  function IndexOf(s: string, c: char): (i: nat)
    ensures i <= |s|
    ensures i < |s| ==> s[i] == c
    ensures c !in s[..i]
  {
    if s == [] then 0
    else if s[0] == c then 0
    else
      var i := IndexOf(s[1..], c) + 1;
      assert s[..i] == [s[0]] + s[1..][..i - 1];
      i
  }

  // ---- identifier spelling ----

  predicate EndsWithUnderscore(s: string) {
    s != [] && s[|s| - 1] == '_'
  }

  /** One character of the normalization: the output so far and whether a separator came last. */
  function NormalizeChar(out: string, separated: bool, c: char): (string, bool) {
    if IsAlnum(c) then
      (if IsUpper(c) && !separated && !EndsWithUnderscore(out) then out + "_" + [Lower(c)] else out + [Lower(c)], false)
    else if c == '_' || c == '-' || IsSpace(c) then
      (if out != [] && !EndsWithUnderscore(out) then out + "_" else out, true)
    else (out, separated)
  }

  function NormalizeChars(s: string, out: string, separated: bool): string
    decreases |s|
  {
    if s == [] then out
    else
      var (out', separated') := NormalizeChar(out, separated, s[0]);
      NormalizeChars(s[1..], out', separated')
  }

  function TrimUnderscores(s: string): string
    decreases |s|
  {
    if s != [] && s[0] == '_' then TrimUnderscores(s[1..])
    else if EndsWithUnderscore(s) then TrimUnderscores(s[..|s| - 1])
    else s
  }

  function Normalized(name: string): string {
    TrimUnderscores(NormalizeChars(Trim(name), "", true))
  }

  method NormalizeIdentifier(name: string) returns (r: string)
    ensures r == Normalized(name)
  {
    var out, separated := "", true;
    var chars := Trim(name);
    for i := 0 to |chars|
      invariant NormalizeChars(chars[i..], out, separated) == NormalizeChars(chars, "", true)
    {
      var ch := chars[i];
      assert chars[i..][0] == ch && chars[i..][1..] == chars[i + 1..];
      if IsAlnum(ch) {
        if IsUpper(ch) && !separated && !EndsWithUnderscore(out) {
          out := out + "_";
        }
        out := out + [Lower(ch)];
        separated := false;
      } else if ch == '_' || ch == '-' || IsSpace(ch) {
        if out != [] && !EndsWithUnderscore(out) {
          out := out + "_";
        }
        separated := true;
      }
    }
    r := TrimUnderscores(out);
  }

  // ---- evaluation ----

  datatype TransformInvocation = TransformInvocation(raw: string, name: string, args: seq<string>)

  function SplitArgs(s: string): seq<string>
    decreases |s|
  {
    var i := IndexOf(s, ',');
    var arg := Trim(s[..i]);
    var head := if arg == [] then [] else [arg];
    if i == |s| then head else head + SplitArgs(s[i + 1..])
  }

  function ParseInvocation(raw: string): Result<TransformInvocation, TokenError> {
    ParseTrimmed(Trim(raw))
  }

  function ParseTrimmed(trimmed: string): Result<TransformInvocation, TokenError> {
    var open := IndexOf(trimmed, '(');
    if trimmed == [] then Err(InvalidTransform("empty transform"))
    else if open == |trimmed| then Ok(TransformInvocation(trimmed, Normalized(trimmed), []))
    else if trimmed[|trimmed| - 1] != ')' then Err(InvalidTransform(trimmed))
    else Ok(TransformInvocation(trimmed, Normalized(Trim(trimmed[..open])), SplitArgs(trimmed[open + 1..|trimmed| - 1])))
  }

  /** What evaluation takes from its context: the values of the built-in tokens, the variables, and the
      text operations by their normalized names. `positional` yields None on arguments it does not accept. */
  datatype Context = Context(
    builtin: string -> string,
    variables: map<string, string>,
    plain: (string, string) -> string,
    positional: (string, string, seq<string>) -> Option<string>,
    regex: (string, string) -> string)

  predicate TakesNoArguments(name: string) {
    || name == "upper" || name == "lower" || name == "capitalized" || name == "title" || name == "snake"
    || name == "camel" || name == "pascal" || name == "kebab" || name == "trim" || name == "collapse_spaces"
    || name == "strip_symbols" || name == "spaces_to_underscore" || name == "sanitize_windows_filename"
  }

  predicate TakesArguments(name: string) {
    name == "take" || name == "skip" || name == "slice"
  }

  function ApplyTransform(ctx: Context, name: string, input: string): Result<string, TokenError> {
    match ParseInvocation(name)
    case Err(e) => Err(e)
    case Ok(inv) =>
      if TakesNoArguments(inv.name) then
        if inv.args == [] then Ok(ctx.plain(inv.name, input)) else Err(InvalidTransform(inv.raw))
      else if TakesArguments(inv.name) then
        match ctx.positional(inv.name, input, inv.args)
        case None => Err(InvalidTransform(inv.raw))
        case Some(text) => Ok(text)
      else Err(UnknownTransform(inv.raw))
  }

  function ApplyRegexPreset(ctx: Context, name: string, input: string): Result<string, TokenError> {
    var normalized := Normalized(name);
    if normalized == "remove_digits" || normalized == "strip_special" || normalized == "extract_date"
       || normalized == "remove_parens" || normalized == "digits_only" || normalized == "letters_only"
    then Ok(ctx.regex(normalized, input))
    else Err(UnknownRegexPreset(name))
  }

  const BUILTIN_TOKENS: set<string> := {
    "original", "stem", "ext", "parent", "grandparent", "date", "year", "month", "day", "hour", "minute", "second",
    "counter", "guid", "index"}

  /** ASCII letters in lower case. */
  function Lowered(s: string): string {
    if s == [] then [] else [Lower(s[0])] + Lowered(s[1..])
  }

  /** A built-in token in any case, else a variable under its name in lower case, else as it is spelled. */
  function ResolveToken(ctx: Context, name: string): Result<string, TokenError> {
    var lower := Lowered(name);
    if lower in BUILTIN_TOKENS then Ok(ctx.builtin(lower))
    else if lower in ctx.variables then Ok(ctx.variables[lower])
    else if name in ctx.variables then Ok(ctx.variables[name])
    else Err(UnknownToken(lower))
  }

  function EvaluateSegment(ctx: Context, segment: Segment, value: string): Result<string, TokenError> {
    match segment
    case Literal(text) => Ok(value + text)
    case Token(name) => (match ResolveToken(ctx, name) case Err(e) => Err(e) case Ok(text) => Ok(value + text))
    case Transform(name) => ApplyTransform(ctx, name, value)
    case RegexPreset(name) => ApplyRegexPreset(ctx, name, value)
  }

  function EvaluateFrom(ctx: Context, pipeline: Pipeline, value: string): Result<string, TokenError>
    decreases |pipeline|
  {
    if pipeline == [] then Ok(value)
    else match EvaluateSegment(ctx, pipeline[0], value)
      case Err(e) => Err(e)
      case Ok(value') => EvaluateFrom(ctx, pipeline[1..], value')
  }

  method Evaluate(pipeline: Pipeline, ctx: Context) returns (r: Result<string, TokenError>)
    ensures r == EvaluateFrom(ctx, pipeline, "")
  {
    var value := "";
    for i := 0 to |pipeline|
      invariant EvaluateFrom(ctx, pipeline[i..], value) == EvaluateFrom(ctx, pipeline, "")
    {
      assert pipeline[i..][0] == pipeline[i] && pipeline[i..][1..] == pipeline[i + 1..];
      var next := EvaluateSegment(ctx, pipeline[i], value);
      if next.Err? {
        return next;
      }
      value := next.value;
    }
    return Ok(value);
  }
}
