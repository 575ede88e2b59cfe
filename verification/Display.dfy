/** The template syntax people edit: its parser and its printer. */
module Display {
  import opened Wrappers
  import opened Sequences
  import opened Tokenizer

  const TRANSFORMS: set<string> := {
    "upper", "lower", "capitalized", "title", "snake", "camel", "pascal", "kebab", "trim", "collapse_spaces",
    "strip_symbols", "spaces_to_underscore", "sanitize_windows_filename", "take", "skip", "slice"}

  const REGEX_PRESETS: set<string> := {
    "remove_digits", "strip_special", "extract_date", "remove_parens", "digits_only", "letters_only"}

  predicate IsKnownTransform(name: string) {
    Normalized(name[..IndexOf(name, '(')]) in TRANSFORMS
  }

  predicate IsKnownRegexPreset(name: string) {
    Normalized(name) in REGEX_PRESETS
  }

  predicate IsIdentifierChar(c: char) {
    IsAlnum(c) || c == '_'
  }

  predicate IsIdentifier(value: string) {
    value != [] && (IsAlpha(value[0]) || value[0] == '_') && forall c <- value :: IsIdentifierChar(c)
  }

  /** Text that between two slashes reads as a regex preset. */
  predicate IsPreset(value: string) {
    IsIdentifier(value) && IsKnownRegexPreset(value)
  }

  predicate IsEscapable(c: char) {
    c == '[' || c == ']' || c == '/' || c == '\\'
  }

  // ---- parsing ----

  /** A length counted from `n` characters earlier. */
  function Later(i: Option<nat>, n: nat): Option<nat> {
    match i case None => None case Some(k) => Some(n + k)
  }

  /** Whether the search gives up at a character. */
  predicate Ends(c: char, delimiter: char) {
    (delimiter == ']' || delimiter == '/') && (c == '\n' || c == '\r')
  }

  /** Length of the text before the first delimiter; a line break ends the search for `]` and `/`. */
  function Until(s: string, delimiter: char): (i: Option<nat>)
    ensures i.Some? ==> i.value < |s| && s[i.value] == delimiter
    decreases |s|
  {
    if s == [] then None
    else if s[0] == delimiter then Some(0)
    else if Ends(s[0], delimiter) then None
    else Later(Until(s[1..], delimiter), 1)
  }

  /** The search one character further on. */
  lemma UntilNext(chars: string, index: nat, delimiter: char, n: nat)
    requires index < |chars|
    ensures Later(Until(chars[index..], delimiter), n)
            == if chars[index] == delimiter then Some(n)
               else if Ends(chars[index], delimiter) then None
               else Later(Until(chars[index + 1..], delimiter), n + 1)
  {
    TailTail(chars, index);
  }

  method ReadUntil(chars: string, start: nat, delimiter: char) returns (r: Option<(string, nat)>)
    requires start <= |chars|
    ensures match Until(chars[start..], delimiter)
            case None => r == None
            case Some(i) => r == Some((chars[start..][..i], start + i + 1))
  {
    ghost var found := Until(chars[start..], delimiter);
    var value := "";
    var index := start;
    while index < |chars|
      invariant start <= index <= |chars| && value == chars[start..][..index - start]
      invariant found == Later(Until(chars[index..], delimiter), index - start)
    {
      var ch := chars[index];
      UntilNext(chars, index, delimiter, index - start);
      if ch == delimiter {
        return Some((value, index + 1));
      }
      if (delimiter == ']' || delimiter == '/') && (ch == '\n' || ch == '\r') {
        return None;
      }
      value := value + [ch];
      index := index + 1;
    }
    return None;
  }

  /** What stands at the head of a template: a literal character or a whole segment, and its width. */
  datatype Piece = Char(c: char, width: nat) | Whole(segment: Segment, width: nat)

  function Next(s: string): (p: Piece)
    requires s != []
    ensures 1 <= p.width <= |s|
  {
    var rest := s[1..];
    if s[0] == '\\' && rest != [] && IsEscapable(rest[0]) then Char(rest[0], 2)
    else if s[0] == '{' && rest != [] && rest[0] == '{' then Char('{', 2)
    else if s[0] == '}' && rest != [] && rest[0] == '}' then Char('}', 2)
    else if s[0] == '{' then
      match Until(rest, '}')
      case Some(i) => if IsIdentifier(rest[..i]) then Whole(Token(rest[..i]), i + 2) else Char(s[0], 1)
      case None => Char(s[0], 1)
    else if s[0] == '[' then
      match Until(rest, ']')
      case Some(i) =>
        var trimmed := Trim(rest[..i]);
        if trimmed != [] && IsKnownTransform(trimmed) then Whole(Transform(trimmed), i + 2) else Char(s[0], 1)
      case None => Char(s[0], 1)
    else if s[0] == '/' then
      match Until(rest, '/')
      case Some(i) => if IsPreset(rest[..i]) then Whole(RegexPreset(rest[..i]), i + 2) else Char(s[0], 1)
      case None => Char(s[0], 1)
    else Char(s[0], 1)
  }

  function Flush(literal: string): Pipeline {
    if literal == "" then [] else [Literal(literal)]
  }

  /** The segments of `s` when `literal` has been read just before it. */
  function ParseFrom(s: string, literal: string): Pipeline
    decreases |s|
  {
    if s == [] then Flush(literal)
    else match Next(s)
      case Char(c, width) => ParseFrom(s[width..], literal + [c])
      case Whole(segment, width) => Flush(literal) + [segment] + ParseFrom(s[width..], "")
  }

  function Parse(input: string): Pipeline {
    ParseFrom(input, "")
  }

  /** The piece at `index`, found by scanning the input in place. */
  method NextAt(chars: string, index: nat) returns (p: Piece)
    requires index < |chars|
    ensures p == Next(chars[index..])
  {
    var ch := chars[index];
    var more := index + 1 < |chars|;
    assert chars[index..][1..] == chars[index + 1..];
    if ch == '\\' && more && IsEscapable(chars[index + 1]) {
      return Char(chars[index + 1], 2);
    }
    if (ch == '{' || ch == '}') && more && chars[index + 1] == ch {
      return Char(ch, 2);
    }
    if ch == '{' {
      var read := ReadUntil(chars, index + 1, '}');
      if read.Some? && IsIdentifier(read.value.0) {
        return Whole(Token(read.value.0), read.value.1 - index);
      }
    } else if ch == '[' {
      var read := ReadUntil(chars, index + 1, ']');
      if read.Some? {
        var trimmed := Trim(read.value.0);
        if trimmed != [] && IsKnownTransform(trimmed) {
          return Whole(Transform(trimmed), read.value.1 - index);
        }
      }
    } else if ch == '/' {
      var read := ReadUntil(chars, index + 1, '/');
      if read.Some? && IsIdentifier(read.value.0) && IsKnownRegexPreset(read.value.0) {
        return Whole(RegexPreset(read.value.0), read.value.1 - index);
      }
    }
    return Char(ch, 1);
  }

  method ParseTemplate(input: string) returns (segments: Pipeline)
    ensures segments == Parse(input)
  {
    segments := [];
    var literal := "";
    var index := 0;
    while index < |input|
      invariant index <= |input|
      invariant segments + ParseFrom(input[index..], literal) == Parse(input)
      decreases |input| - index
    {
      var piece := NextAt(input, index);
      assert input[index..][piece.width..] == input[index + piece.width..];
      match piece {
        case Char(c, width) =>
          literal := literal + [c];
        case Whole(segment, width) =>
          segments := segments + Flush(literal) + [segment];
          literal := "";
      }
      index := index + piece.width;
    }
    segments := segments + Flush(literal);
  }

  // ---- printing ----

  /** Whether the slash at the head of `value` would read as the start of a preset. */
  predicate NeedsSlashEscape(value: string)
    requires value != []
  {
    var rest := value[1..];
    var end := IndexOf(rest, '/');
    end < |rest| && IsPreset(rest[..end])
  }

  /** The printed form of the first character of a literal, given what follows it. */
  function Escape(value: string, followed: bool): string
    requires value != []
  {
    var c := value[0];
    if c == '\\' then
      if (|value| > 1 && IsEscapable(value[1])) || (|value| == 1 && followed) then "\\\\" else "\\"
    else if c == '{' then "{{"
    else if c == '}' then "}}"
    else if c == '[' || c == ']' then ['\\', c]
    else if c == '/' && NeedsSlashEscape(value) then "\\/"
    else [c]
  }

  function FormatLiteral(value: string, followed: bool): string
    decreases |value|
  {
    if value == [] then "" else Escape(value, followed) + FormatLiteral(value[1..], followed)
  }

  function FormatSegment(segment: Segment, followed: bool): string {
    match segment
    case Literal(value) => FormatLiteral(value, followed)
    case Token(name) => "{" + name + "}"
    case Transform(name) => "[" + name + "]"
    case RegexPreset(name) => "/" + name + "/"
  }

  function Format(pipeline: Pipeline): string
    decreases |pipeline|
  {
    if pipeline == [] then "" else FormatSegment(pipeline[0], |pipeline| > 1) + Format(pipeline[1..])
  }

  method PrintLiteral(value: string, followed: bool) returns (out: string)
    ensures out == FormatLiteral(value, followed)
  {
    out := "";
    for i := 0 to |value|
      invariant out + FormatLiteral(value[i..], followed) == FormatLiteral(value, followed)
    {
      TailTail(value, i);
      Assoc(out, Escape(value[i..], followed), FormatLiteral(value[i + 1..], followed));
      out := out + Escape(value[i..], followed);
    }
  }

  method PrintSegment(segment: Segment, followed: bool) returns (out: string)
    ensures out == FormatSegment(segment, followed)
  {
    match segment
    case Literal(value) =>
      out := PrintLiteral(value, followed);
    case Token(name) =>
      out := "{" + name + "}";
    case Transform(name) =>
      out := "[" + name + "]";
    case RegexPreset(name) =>
      out := "/" + name + "/";
  }

  method FormatTemplate(pipeline: Pipeline) returns (out: string)
    ensures out == Format(pipeline)
  {
    out := "";
    for k := 0 to |pipeline|
      invariant out + Format(pipeline[k..]) == Format(pipeline)
    {
      var followed := k + 1 < |pipeline|;
      TailTail(pipeline, k);
      var text := PrintSegment(pipeline[k], followed);
      Assoc(out, text, Format(pipeline[k + 1..]));
      out := out + text;
    }
  }
}
