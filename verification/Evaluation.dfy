/** What a template evaluates to, and how the names in it may be spelled. */
module Evaluation {
  import opened Wrappers
  import opened Sequences
  import opened Tokenizer
  import opened Display
  import opened RoundTrip

  // ---- literals and tokens ----

  lemma {:induction false} LoweredMeaning(s: string)
    ensures |Lowered(s)| == |s|
    ensures forall i :: 0 <= i < |s| ==> Lowered(s)[i] == if 'A' <= s[i] <= 'Z' then (s[i] as int + 32) as char else s[i]
    decreases |s|
  {
    if s != [] {
      LoweredMeaning(s[1..]);
    }
  }

  /** The text a literal or a token stands for: a built-in token in any case, else the variable under
      its name in lower case, else the variable as it is spelled. */
  predicate Shows(ctx: Context, segment: Segment, text: string) {
    match segment
    case Literal(value) => text == value
    case Token(name) =>
      var lower := Lowered(name);
      if lower in BUILTIN_TOKENS then text == ctx.builtin(lower)
      else if lower in ctx.variables then text == ctx.variables[lower]
      else name in ctx.variables && text == ctx.variables[name]
    case _ => false
  }

  function Concatenated(texts: seq<string>): string {
    if texts == [] then "" else texts[0] + Concatenated(texts[1..])
  }

  /** Literals and tokens evaluate to their texts, one after the other. */
  lemma {:induction false} TextsInOrder(ctx: Context, p: Pipeline, texts: seq<string>, value: string)
    requires |p| == |texts| && forall i :: 0 <= i < |p| ==> Shows(ctx, p[i], texts[i])
    ensures EvaluateFrom(ctx, p, value) == Ok(value + Concatenated(texts))
    decreases |p|
  {
    if p == [] {
      assert value + "" == value;
    } else {
      assert Shows(ctx, p[0], texts[0]);
      assert EvaluateSegment(ctx, p[0], value) == Ok(value + texts[0]);
      TextsInOrder(ctx, p[1..], texts[1..], value + texts[0]);
      Assoc(value, texts[0], Concatenated(texts[1..]));
    }
  }

  /** After any prefix that evaluates to a value, a literal or a token puts its text behind it. */
  lemma TextAppends(ctx: Context, p: Pipeline, segment: Segment, value: string, text: string)
    requires EvaluateFrom(ctx, p, "") == Ok(value) && Shows(ctx, segment, text)
    ensures EvaluateFrom(ctx, p + [segment], "") == Ok(value + text)
  {
    EvaluationSplits(ctx, p, [segment], "");
    TextsInOrder(ctx, [segment], [text], value);
    assert [text][1..] == [] && text + "" == text;
  }

  /** A token that is neither built in nor a variable is an error, named in lower case. */
  lemma UnknownTokenFails(ctx: Context, p: Pipeline, name: string, value: string)
    requires EvaluateFrom(ctx, p, "") == Ok(value)
    requires Lowered(name) !in BUILTIN_TOKENS && Lowered(name) !in ctx.variables && name !in ctx.variables
    ensures EvaluateFrom(ctx, p + [Token(name)], "") == Err(UnknownToken(Lowered(name)))
  {
    EvaluationSplits(ctx, p, [Token(name)], "");
    OneSegment(ctx, Token(name), value);
  }

  // ---- transforms and presets ----

  lemma Untrimmed(s: string)
    requires s != "" && !IsSpace(s[0]) && !IsSpace(s[|s| - 1])
    ensures Trim(s) == s
  {
  }

  lemma OneSegment(ctx: Context, segment: Segment, value: string)
    ensures EvaluateFrom(ctx, [segment], value) == EvaluateSegment(ctx, segment, value)
  {
    assert [segment][1..] == [];
  }

  lemma NoBracket(s: string)
    requires '(' !in s
    ensures IndexOf(s, '(') == |s|
  {
  }

  /** After any prefix that evaluates to a value, a transform without arguments, in any spelling of its
      name, is applied to the whole value. */
  lemma TransformActs(ctx: Context, p: Pipeline, name: string, value: string)
    requires EvaluateFrom(ctx, p, "") == Ok(value)
    requires '(' !in Trim(name) && Trim(name) != "" && Normalized(Trim(name)) in TRANSFORMS - {"take", "skip", "slice"}
    ensures EvaluateFrom(ctx, p + [Transform(name)], "") == Ok(ctx.plain(Normalized(Trim(name)), value))
  {
    EvaluationSplits(ctx, p, [Transform(name)], "");
    OneSegment(ctx, Transform(name), value);
    NoBracket(Trim(name));
    SameNames(Normalized(Trim(name)));
  }

  lemma CallParts(name: string, args: string)
    requires '(' !in name && name != "" && !IsSpace(name[0])
    ensures var call := name + ("(" + args + ")");
            && Trim(call) == call && IndexOf(call, '(') == |name| && call[..|name|] == name
            && call[|call| - 1] == ')' && call[|name| + 1..|call| - 1] == args
  {
    var tail := "(" + args + ")";
    var call := name + tail;
    Split(name, tail);
    assert call[..|name|] == name;
    assert tail[0] == '(' && tail[|tail| - 1] == ')' && tail[1..|tail| - 1] == args;
    assert call[|name|] == tail[0] && call[|call| - 1] == tail[|tail| - 1] && call[0] == name[0];
    assert call[|name| + 1..|call| - 1] == tail[1..|tail| - 1];
    FirstIndex(call, '(', |name|);
    Untrimmed(call);
  }

  lemma ParsedParts(call: string, name: string, args: string)
    requires IndexOf(call, '(') == |name| < |call| && call[..|name|] == name
    requires call[|call| - 1] == ')' && call[|name| + 1..|call| - 1] == args
    ensures ParseTrimmed(call) == Ok(TransformInvocation(call, Normalized(Trim(name)), SplitArgs(args)))
  {
  }

  lemma CallParsed(name: string, args: string)
    requires '(' !in name && name != "" && !IsSpace(name[0])
    ensures var call := name + ("(" + args + ")");
            ParseInvocation(call) == Ok(TransformInvocation(call, Normalized(Trim(name)), SplitArgs(args)))
  {
    CallParts(name, args);
    ParsedParts(name + ("(" + args + ")"), name, args);
  }

  lemma PositionalApplies(ctx: Context, call: string, inv: TransformInvocation, value: string)
    requires ParseInvocation(call) == Ok(inv) && inv.raw == call && inv.name in {"take", "skip", "slice"}
    ensures ApplyTransform(ctx, call, value)
            == match ctx.positional(inv.name, value, inv.args) case Some(text) => Ok(text) case None => Err(InvalidTransform(call))
  {
  }

  /** A transform with arguments in brackets is applied to the whole value and them, or is invalid. */
  lemma PositionalActs(ctx: Context, p: Pipeline, name: string, args: string, value: string)
    requires EvaluateFrom(ctx, p, "") == Ok(value)
    requires '(' !in name && name != "" && !IsSpace(name[0]) && Normalized(Trim(name)) in {"take", "skip", "slice"}
    ensures var call := name + ("(" + args + ")");
            EvaluateFrom(ctx, p + [Transform(call)], "")
            == match ctx.positional(Normalized(Trim(name)), value, SplitArgs(args))
               case Some(text) => Ok(text)
               case None => Err(InvalidTransform(call))
  {
    var call := name + ("(" + args + ")");
    EvaluationSplits(ctx, p, [Transform(call)], "");
    OneSegment(ctx, Transform(call), value);
    CallParsed(name, args);
    PositionalApplies(ctx, call, TransformInvocation(call, Normalized(Trim(name)), SplitArgs(args)), value);
  }

  /** Arguments stand between commas, trimmed, and empty ones are left out. */
  lemma ArgumentsMeaning(first: string, rest: string)
    requires ',' !in first
    ensures var head := if Trim(first) == "" then [] else [Trim(first)];
            SplitArgs(first) == head && SplitArgs(first + "," + rest) == head + SplitArgs(rest)
  {
    var s := first + "," + rest;
    assert s[|first|] == ',' && s[..|first|] == first && s[|first| + 1..] == rest;
    FirstIndex(s, ',', |first|);
    assert IndexOf(first, ',') == |first| && first[..|first|] == first;
  }

  /** After any prefix that evaluates to a value, a preset, in any spelling, is applied to the whole value. */
  lemma PresetActs(ctx: Context, p: Pipeline, name: string, value: string)
    requires EvaluateFrom(ctx, p, "") == Ok(value) && Normalized(name) in REGEX_PRESETS
    ensures EvaluateFrom(ctx, p + [RegexPreset(name)], "") == Ok(ctx.regex(Normalized(name), value))
  {
    EvaluationSplits(ctx, p, [RegexPreset(name)], "");
    OneSegment(ctx, RegexPreset(name), value);
  }

  // ---- spellings ----

  /** A word of lower-case letters and digits that starts with a letter. */
  predicate IsWord(w: string) {
    w != "" && 'a' <= w[0] <= 'z' && forall i :: 0 <= i < |w| ==> 'a' <= w[i] <= 'z' || '0' <= w[i] <= '9'
  }

  predicate AreWords(ws: seq<string>)
    decreases |ws|
  {
    ws != [] ==> IsWord(ws[0]) && AreWords(ws[1..])
  }

  /** Each word after a separator. */
  function Separated(ws: seq<string>, separator: char): string {
    if ws == [] then "" else [separator] + ws[0] + Separated(ws[1..], separator)
  }

  function Capitalized(w: string): string
    requires IsWord(w)
  {
    [(w[0] as int - 32) as char] + w[1..]
  }

  /** Each word with a capital letter. */
  function Humps(ws: seq<string>): string
    requires AreWords(ws)
    decreases |ws|
  {
    if ws == [] then "" else Capitalized(ws[0]) + Humps(ws[1..])
  }

  /** Lower-case letters and digits go to the output as they are. */
  lemma {:induction false} WordChars(w: string, rest: string, out: string, separated: bool)
    requires forall i :: 0 <= i < |w| ==> 'a' <= w[i] <= 'z' || '0' <= w[i] <= '9'
    ensures NormalizeChars(w + rest, out, separated) == NormalizeChars(rest, out + w, separated && w == "")
    decreases |w|
  {
    if w == "" {
      NilLeft(rest);
      assert out + w == out;
    } else {
      TailConcat(w, rest);
      assert NormalizeChar(out, separated, w[0]) == (out + [w[0]], false);
      WordChars(w[1..], rest, out + [w[0]], false);
      assert out + [w[0]] + w[1..] == out + w;
    }
  }

  predicate EndsInWord(out: string) {
    out != "" && out[|out| - 1] != '_'
  }

  lemma Grouped(a: string, b: string, c: string, d: string)
    ensures a + b + c + d == a + (b + c + d)
  {
  }

  lemma NilRight(s: string)
    ensures s + "" == s
  {
  }

  lemma {:induction false} SeparatedChars(ws: seq<string>, separator: char, out: string)
    requires AreWords(ws) && EndsInWord(out) && (separator == '_' || separator == '-' || separator == ' ')
    ensures NormalizeChars(Separated(ws, separator), out, false) == out + Separated(ws, '_')
    decreases |ws|
  {
    if ws == [] {
      NilRight(out);
    } else {
      var w, rest := ws[0], Separated(ws[1..], separator);
      SeparatorChars(separator, w, rest, out);
      SeparatedChars(ws[1..], separator, out + "_" + w);
      Grouped(out, "_", w, Separated(ws[1..], '_'));
    }
  }

  /** A separator and a word after it. */
  lemma SeparatorChars(separator: char, w: string, rest: string, out: string)
    requires IsWord(w) && EndsInWord(out) && (separator == '_' || separator == '-' || separator == ' ')
    ensures NormalizeChars([separator] + w + rest, out, false) == NormalizeChars(rest, out + "_" + w, false)
    ensures EndsInWord(out + "_" + w)
  {
    var s := [separator] + w + rest;
    assert s[0] == separator && s[1..] == w + rest;
    assert NormalizeChar(out, false, separator) == (out + "_", true);
    WordChars(w, rest, out + "_", true);
  }

  /** A capital letter starts a new word of the output. */
  lemma CapitalChars(w: string, rest: string, out: string, separated: bool)
    requires IsWord(w) && (if separated then out == "" else EndsInWord(out))
    ensures var out' := if separated then w else out + "_" + w;
            NormalizeChars(Capitalized(w) + rest, out, separated) == NormalizeChars(rest, out', false) && EndsInWord(out')
  {
    var upper := (w[0] as int - 32) as char;
    var s := Capitalized(w) + rest;
    var start := if separated then "" else out + "_";
    assert s[0] == upper && s[1..] == w[1..] + rest;
    assert IsUpper(upper) && Lower(upper) == w[0];
    assert NormalizeChar(out, separated, upper) == (start + [w[0]], false);
    WordChars(w[1..], rest, start + [w[0]], false);
    HeadTail(w);
    Assoc(start, [w[0]], w[1..]);
    NilLeft(w);
  }

  lemma {:induction false} HumpsChars(ws: seq<string>, out: string)
    requires AreWords(ws) && EndsInWord(out)
    ensures NormalizeChars(Humps(ws), out, false) == out + Separated(ws, '_')
    decreases |ws|
  {
    if ws == [] {
      NilRight(out);
    } else {
      CapitalChars(ws[0], Humps(ws[1..]), out, false);
      HumpsChars(ws[1..], out + "_" + ws[0]);
      Grouped(out, "_", ws[0], Separated(ws[1..], '_'));
    }
  }

  /** A name that starts and ends in letters or digits. */
  predicate Framed(s: string) {
    s != "" && IsAlnum(s[0]) && IsAlnum(s[|s| - 1])
  }

  lemma FramedConcat(a: string, b: string)
    requires Framed(a) && Framed(b)
    ensures Framed(a + b)
  {
    assert (a + b)[0] == a[0] && (a + b)[|a + b| - 1] == b[|b| - 1];
  }

  lemma {:induction false} SeparatedFramed(w: string, ws: seq<string>, separator: char)
    requires IsWord(w) && AreWords(ws)
    ensures Framed(w + Separated(ws, separator))
    decreases |ws|
  {
    if ws == [] {
      NilRight(w);
    } else {
      var rest := ws[0] + Separated(ws[1..], separator);
      SeparatedFramed(ws[0], ws[1..], separator);
      Assoc([separator], ws[0], Separated(ws[1..], separator));
      var s := w + ([separator] + rest);
      assert s[0] == w[0] && s[|s| - 1] == rest[|rest| - 1];
    }
  }

  lemma {:induction false} HumpsFramed(w: string, ws: seq<string>)
    requires Framed(w) && AreWords(ws)
    ensures Framed(w + Humps(ws))
    decreases |ws|
  {
    if ws == [] {
      NilRight(w);
    } else {
      CapitalFramed(ws[0]);
      FramedConcat(w, Capitalized(ws[0]));
      HumpsFramed(w + Capitalized(ws[0]), ws[1..]);
      Assoc(w, Capitalized(ws[0]), Humps(ws[1..]));
    }
  }

  lemma CapitalFramed(w: string)
    requires IsWord(w)
    ensures Framed(Capitalized(w)) && Framed(w)
  {
  }

  /** Nothing is to be trimmed from a framed name or from its normal form. */
  lemma FramedNormalizes(s: string, name: string)
    requires Framed(s) && Framed(name) && NormalizeChars(s, "", true) == name
    ensures Normalized(s) == name
  {
    Untrimmed(s);
  }

  lemma SeparatedSpelling(w: string, ws: seq<string>, separator: char)
    requires IsWord(w) && AreWords(ws) && (separator == '_' || separator == '-' || separator == ' ')
    ensures Normalized(w + Separated(ws, separator)) == w + Separated(ws, '_')
  {
    SeparatedFramed(w, ws, separator);
    SeparatedFramed(w, ws, '_');
    WordChars(w, Separated(ws, separator), "", true);
    NilLeft(w);
    SeparatedChars(ws, separator, w);
    FramedNormalizes(w + Separated(ws, separator), w + Separated(ws, '_'));
  }

  lemma CamelSpelling(w: string, ws: seq<string>)
    requires IsWord(w) && AreWords(ws)
    ensures Normalized(w + Humps(ws)) == w + Separated(ws, '_')
  {
    CapitalFramed(w);
    HumpsFramed(w, ws);
    SeparatedFramed(w, ws, '_');
    WordChars(w, Humps(ws), "", true);
    NilLeft(w);
    HumpsChars(ws, w);
    FramedNormalizes(w + Humps(ws), w + Separated(ws, '_'));
  }

  lemma PascalSpelling(w: string, ws: seq<string>)
    requires IsWord(w) && AreWords(ws)
    ensures Normalized(Capitalized(w) + Humps(ws)) == w + Separated(ws, '_')
  {
    CapitalFramed(w);
    HumpsFramed(Capitalized(w), ws);
    SeparatedFramed(w, ws, '_');
    CapitalChars(w, Humps(ws), "", true);
    HumpsChars(ws, w);
    FramedNormalizes(Capitalized(w) + Humps(ws), w + Separated(ws, '_'));
  }

  /** The name of some words, however they are put together: with underscores, hyphens or spaces, in
      camel case or in Pascal case, normalizes to the words with underscores. */
  lemma SpellingsAgree(w: string, ws: seq<string>)
    requires IsWord(w) && AreWords(ws)
    ensures var name := w + Separated(ws, '_');
            && Normalized(name) == name
            && Normalized(w + Separated(ws, '-')) == name
            && Normalized(w + Separated(ws, ' ')) == name
            && Normalized(w + Humps(ws)) == name
            && Normalized(Capitalized(w) + Humps(ws)) == name
  {
    SeparatedSpelling(w, ws, '_');
    SeparatedSpelling(w, ws, '-');
    SeparatedSpelling(w, ws, ' ');
    CamelSpelling(w, ws);
    PascalSpelling(w, ws);
  }
}
