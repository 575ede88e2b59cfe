/** Printing and parsing templates undo each other, and exactly when they do not. */
module RoundTrip {
  import opened Wrappers
  import opened Sequences
  import opened Tokenizer
  import opened Display

  // ---- canonical pipelines ----

  /** A segment as the parser can produce it. */
  predicate WellFormed(segment: Segment) {
    match segment
    case Literal(value) => value != ""
    case Token(name) => IsIdentifier(name)
    case Transform(name) =>
      name != "" && Trim(name) == name && IsKnownTransform(name) && forall c <- name :: c != ']' && c != '\n' && c != '\r'
    case RegexPreset(name) => IsPreset(name)
  }

  predicate Canonical(p: Pipeline)
    decreases |p|
  {
    p != [] ==>
      && WellFormed(p[0])
      && (|p| > 1 && p[0].Literal? ==> !p[1].Literal?)
      && Canonical(p[1..])
  }

  /** A literal that ends in a slash and the name of a preset. */
  predicate EndsLikePreset(value: string)
    decreases |value|
  {
    value != [] && ((value[0] == '/' && IsPreset(value[1..])) || EndsLikePreset(value[1..]))
  }

  /** Somewhere such a literal stands right before a preset. */
  predicate Hazardous(p: Pipeline)
    decreases |p|
  {
    |p| > 1 && ((p[0].Literal? && EndsLikePreset(p[0].value) && p[1].RegexPreset?) || Hazardous(p[1..]))
  }

  // ---- the parser's output is canonical ----

  lemma {:induction false} UntilMeaning(s: string, delimiter: char)
    ensures var i := Until(s, delimiter);
            i.Some? ==>
              && delimiter !in s[..i.value]
              && (delimiter == ']' || delimiter == '/' ==> '\n' !in s[..i.value] && '\r' !in s[..i.value])
    decreases |s|
  {
    if s != [] && Until(s, delimiter).Some? && s[0] != delimiter {
      UntilMeaning(s[1..], delimiter);
      var i := Until(s, delimiter).value;
      assert s[..i] == [s[0]] + s[1..][..i - 1];
    }
  }

  lemma {:induction false} TrimStartPart(s: string)
    ensures forall c <- TrimStart(s) :: c in s
    decreases |s|
  {
    if s != [] && IsSpace(s[0]) {
      TrimStartPart(s[1..]);
    }
  }

  lemma NextWellFormed(s: string)
    requires s != []
    ensures Next(s).Whole? ==> WellFormed(Next(s).segment) && !Next(s).segment.Literal?
  {
    if Next(s).Whole? && Next(s).segment.Transform? {
      var rest := s[1..];
      UntilMeaning(rest, ']');
      var content := rest[..Until(rest, ']').value];
      TrimStartPart(content);
      TrimTwice(content);
      assert forall c <- Trim(content) :: c in TrimStart(content);
    }
  }

  lemma {:induction false} ParseFromCanonical(s: string, literal: string)
    ensures Canonical(ParseFrom(s, literal))
    decreases |s|
  {
    if s != [] {
      var p := Next(s);
      match p
      case Char(c, width) => ParseFromCanonical(s[width..], literal + [c]);
      case Whole(segment, width) =>
        var tail := ParseFrom(s[width..], "");
        ParseFromCanonical(s[width..], "");
        NextWellFormed(s);
        assert ([segment] + tail)[1..] == tail;
        assert ([Literal(literal)] + ([segment] + tail))[1..] == [segment] + tail;
        assert [Literal(literal)] + [segment] + tail == [Literal(literal)] + ([segment] + tail);
        assert [] + [segment] + tail == [segment] + tail;
    } else {
      assert [Literal(literal)][1..] == [];
    }
  }

  /** Whatever the input, the parser produces a canonical pipeline. */
  lemma ParseCanonical(input: string)
    ensures Canonical(Parse(input))
  {
    ParseFromCanonical(input, "");
  }

  // ---- reading back one segment ----

  lemma {:induction false} UntilExact(content: string, delimiter: char, rest: string)
    requires delimiter !in content
    requires delimiter == ']' || delimiter == '/' ==> '\n' !in content && '\r' !in content
    ensures Until(content + [delimiter] + rest, delimiter) == Some(|content|)
    decreases |content|
  {
    if content != [] {
      var s := content + [delimiter] + rest;
      assert s[1..] == content[1..] + [delimiter] + rest;
      UntilExact(content[1..], delimiter, rest);
    }
  }

  /** An opening character, a name, a closing character and more, cut into its parts. */
  lemma Bracketed(open: string, name: string, close: string, rest: string)
    requires |open| == |close| == 1
    ensures var s := open + name + close + rest;
            && s[0] == open[0] && s[1..] == name + close + rest && s[1..][..|name|] == name
            && |s| == |name| + 2 + |rest| && s[|name| + 2..] == rest
  {
  }

  lemma TokenReadBack(name: string, rest: string)
    requires IsIdentifier(name)
    ensures Next("{" + name + "}" + rest) == Whole(Token(name), |name| + 2)
  {
    Bracketed("{", name, "}", rest);
    assert IsIdentifierChar(name[0]);
    UntilExact(name, '}', rest);
  }

  lemma TransformReadBack(name: string, rest: string)
    requires WellFormed(Transform(name))
    ensures Next("[" + name + "]" + rest) == Whole(Transform(name), |name| + 2)
  {
    Bracketed("[", name, "]", rest);
    UntilExact(name, ']', rest);
  }

  lemma PresetReadBack(name: string, rest: string)
    requires IsPreset(name)
    ensures Next("/" + name + "/" + rest) == Whole(RegexPreset(name), |name| + 2)
  {
    Bracketed("/", name, "/", rest);
    UntilExact(name, '/', rest);
  }

  /** The parser reads a printed segment back whole. */
  lemma SegmentReadBack(segment: Segment, followed: bool, rest: string, literal: string)
    requires WellFormed(segment) && !segment.Literal?
    ensures ParseFrom(FormatSegment(segment, followed) + rest, literal)
            == Flush(literal) + [segment] + ParseFrom(rest, "")
  {
    match segment
    case Token(name) =>
      TokenReadBack(name, rest);
      Bracketed("{", name, "}", rest);
    case Transform(name) =>
      TransformReadBack(name, rest);
      Bracketed("[", name, "]", rest);
    case RegexPreset(name) =>
      PresetReadBack(name, rest);
      Bracketed("/", name, "/", rest);
  }

  // ---- reading back one literal character ----

  /** Text printed after a literal: nothing, or a segment's opening character and more. */
  predicate After(rest: string, followed: bool) {
    if followed then rest != [] && (rest[0] == '{' || rest[0] == '[' || rest[0] == '/') else rest == []
  }

  predicate AllIdentifierChars(s: string) {
    forall i :: 0 <= i < |s| ==> IsIdentifierChar(s[i])
  }

  lemma IdentifierTail(c: char, s: string)
    requires AllIdentifierChars([c] + s)
    ensures AllIdentifierChars(s)
  {
    assert forall i :: 0 <= i < |s| ==> s[i] == ([c] + s)[i + 1];
  }

  /** What the first printed character tells of a literal's first character. */
  lemma HeadInPrint(value: string, followed: bool)
    requires value != []
    ensures var head := Escape(value, followed);
            && head != [] && (IsIdentifierChar(head[0]) ==> head == [value[0]]) && (head[0] == '/' ==> value[0] == '/')
  {
  }

  /** Where a slash after `value` is read as closing a name, `value` printed itself unchanged up to there. */
  lemma {:induction false} NameInPrint(value: string, followed: bool, rest: string, i: nat)
    requires After(rest, followed)
    requires var s := FormatLiteral(value, followed) + rest; i < |s| && s[i] == '/' && AllIdentifierChars(s[..i])
    ensures i <= |value| && value[..i] == (FormatLiteral(value, followed) + rest)[..i]
    ensures if i < |value| then value[i] == '/' else rest != [] && rest[0] == '/'
    decreases |value|
  {
    var s := FormatLiteral(value, followed) + rest;
    assert i > 0 ==> IsIdentifierChar(s[..i][0]);
    if value == [] {
      NilLeft(rest);
    } else {
      var head, tail := Escape(value, followed), FormatLiteral(value[1..], followed);
      Assoc(head, tail, rest);
      HeadInPrint(value, followed);
      if i > 0 {
        assert head == [value[0]];
        ConsTake(value[0], tail + rest, i);
        IdentifierTail(value[0], (tail + rest)[..i - 1]);
        NameInPrint(value[1..], followed, rest, i - 1);
        HeadTail(value);
        ConsTake(value[0], value[1..], i);
      }
    }
  }

  /** A printed slash that needed no escape is not taken for the start of a preset, unless the
      literal ends in the name of one and a preset follows. */
  lemma PlainSlash(value: string, followed: bool, rest: string)
    requires value != [] && value[0] == '/' && !NeedsSlashEscape(value) && After(rest, followed)
    requires rest != [] && rest[0] == '/' ==> !IsPreset(value[1..])
    ensures var s := FormatLiteral(value[1..], followed) + rest;
            Until(s, '/').Some? ==> !IsPreset(s[..Until(s, '/').value])
  {
    var s := FormatLiteral(value[1..], followed) + rest;
    var until := Until(s, '/');
    if until.Some? && IsPreset(s[..until.value]) {
      var i := until.value;
      var name := value[1..];
      NameInPrint(name, followed, rest, i);
      WholePrefix(name, i);
      if i < |name| {
        FirstIndex(name, '/', i);
      }
    }
  }

  lemma WholePrefix(s: string, i: nat)
    ensures i == |s| ==> s[..i] == s
  {
  }

  lemma FirstIndex(s: string, c: char, i: nat)
    requires i < |s| && s[i] == c && c !in s[..i]
    ensures IndexOf(s, c) == i
  {
    var j := IndexOf(s, c);
    assert forall k :: 0 <= k < i ==> s[..i][k] == s[k];
    assert forall k :: 0 <= k < j ==> s[..j][k] == s[k];
  }

  /** The parser reads the printed form of a literal's first character as that character. */
  lemma CharReadBack(value: string, followed: bool, rest: string, s: string, tail: string)
    requires value != [] && After(rest, followed)
    requires tail == FormatLiteral(value[1..], followed) + rest && s == Escape(value, followed) + tail
    requires value[0] == '/' && rest != [] && rest[0] == '/' ==> !IsPreset(value[1..])
    ensures Next(s) == Char(value[0], |Escape(value, followed)|) && s[|Escape(value, followed)|..] == tail
  {
    var head := Escape(value, followed);
    Split(head, tail);
    if head == ['/'] {
      PlainSlash(value, followed, rest);
    } else if head == ['\\'] && |value| > 1 {
      assert tail[0] == Escape(value[1..], followed)[0];
    }
  }

  /** One character of a printed literal, read back. */
  lemma CharParsed(value: string, followed: bool, rest: string, literal: string)
    requires value != [] && After(rest, followed)
    requires value[0] == '/' && rest != [] && rest[0] == '/' ==> !IsPreset(value[1..])
    ensures ParseFrom(FormatLiteral(value, followed) + rest, literal)
            == ParseFrom(FormatLiteral(value[1..], followed) + rest, literal + [value[0]])
  {
    var s := FormatLiteral(value, followed) + rest;
    Assoc(Escape(value, followed), FormatLiteral(value[1..], followed), rest);
    CharReadBack(value, followed, rest, s, FormatLiteral(value[1..], followed) + rest);
  }

  /** The parser reads a printed literal back whole. */
  lemma {:induction false} LiteralReadBack(value: string, followed: bool, rest: string, literal: string)
    requires After(rest, followed)
    requires rest != [] && rest[0] == '/' ==> !EndsLikePreset(value)
    ensures ParseFrom(FormatLiteral(value, followed) + rest, literal) == ParseFrom(rest, literal + value)
    decreases |value|
  {
    if value == [] {
      assert FormatLiteral(value, followed) + rest == rest && literal + value == literal;
    } else {
      CharParsed(value, followed, rest, literal);
      LiteralReadBack(value[1..], followed, rest, literal + [value[0]]);
      Assoc(literal, [value[0]], value[1..]);
      HeadTail(value);
    }
  }

  /** What is printed after a literal of a canonical pipeline. */
  lemma AfterLiteral(p: Pipeline)
    requires p == [] || (!p[0].Literal? && WellFormed(p[0]))
    ensures After(Format(p), p != [])
    ensures Format(p) != [] && Format(p)[0] == '/' <==> p != [] && p[0].RegexPreset?
  {
  }

  // ---- the round trip ----

  lemma {:induction false} ParseFormat(p: Pipeline, literal: string)
    requires Canonical(p) && !Hazardous(p)
    requires literal != "" && p != [] ==> !p[0].Literal?
    ensures ParseFrom(Format(p), literal) == Flush(literal) + p
    decreases |p|
  {
    if p != [] {
      var rest := p[1..];
      HeadTail(p);
      if p[0].Literal? {
        AfterLiteral(rest);
        LiteralReadBack(p[0].value, |p| > 1, Format(rest), "");
        NilLeft(p[0].value);
        NilLeft(p);
        ParseFormat(rest, p[0].value);
      } else {
        SegmentReadBack(p[0], |p| > 1, Format(rest), literal);
        ParseFormat(rest, "");
        NilLeft(rest);
        Assoc(Flush(literal), [p[0]], rest);
      }
    }
  }

  /** A name is printed as it is. */
  lemma {:induction false} NamePrints(name: string, followed: bool)
    requires forall c <- name :: IsIdentifierChar(c)
    ensures FormatLiteral(name, followed) == name
    decreases |name|
  {
    if name != [] {
      assert name[0] in name;
      NamePrints(name[1..], followed);
    }
  }

  lemma NoSlashInName(name: string)
    requires IsIdentifier(name)
    ensures '/' !in name
  {
    assert !IsIdentifierChar('/');
  }

  /** The slash that starts a preset's name at the end of a literal is read as starting a preset. */
  lemma CutHere(name: string, rest: string, literal: string)
    requires IsPreset(name) && rest != [] && rest[0] == '/'
    ensures ParseFrom(FormatLiteral("/" + name, true) + rest, literal)
            == Flush(literal) + [RegexPreset(name)] + ParseFrom(rest[1..], "")
  {
    NamePrints(name, true);
    var value := "/" + name;
    NoSlashInName(name);
    assert value[1..] == name;
    assert FormatLiteral(value, true) == "/" + name;
    HeadTail(rest);
    Assoc("/" + name, "/", rest[1..]);
    SegmentReadBack(RegexPreset(name), true, rest[1..], literal);
  }

  /** Before a preset, a literal ending like one is cut in two: the parser reads a preset in it. */
  lemma {:induction false} LiteralCut(value: string, rest: string, literal: string) returns (k: nat, more: Pipeline)
    requires EndsLikePreset(value) && rest != [] && rest[0] == '/'
    ensures k < |value|
    ensures ParseFrom(FormatLiteral(value, true) + rest, literal)
            == Flush(literal + value[..k]) + [RegexPreset(value[k + 1..])] + more
    decreases |value|
  {
    var name := value[1..];
    HeadTail(value);
    if value[0] == '/' && IsPreset(name) {
      CutHere(name, rest, literal);
      k, more := 0, ParseFrom(rest[1..], "");
      assert literal + value[..0] == literal;
    } else {
      CharParsed(value, true, rest, literal);
      k, more := LiteralCut(name, rest, literal + [value[0]]);
      Assoc(literal, [value[0]], name[..k]);
      ConsTake(value[0], name, k + 1);
      ConsTake(value[0], name, k + 2);
      k := k + 1;
    }
  }

  lemma {:induction false} ParseFormatFails(p: Pipeline, literal: string)
    requires Canonical(p) && Hazardous(p)
    requires literal != "" ==> !p[0].Literal?
    ensures ParseFrom(Format(p), literal) != Flush(literal) + p
    decreases |p|
  {
    var rest := p[1..];
    HeadTail(p);
    if p[0].Literal? {
      var value := p[0].value;
      AfterLiteral(rest);
      if EndsLikePreset(value) && p[1].RegexPreset? {
        var k, more := LiteralCut(value, Format(rest), "");
        var parsed := ParseFrom(Format(p), "");
        NilLeft(value[..k]);
        NilLeft(p);
        assert parsed[0] == if k == 0 then RegexPreset(value[k + 1..]) else Literal(value[..k]);
        assert |value[..k]| < |value|;
      } else {
        LiteralReadBack(value, |p| > 1, Format(rest), "");
        NilLeft(value);
        NilLeft(p);
        ParseFormatFails(rest, value);
      }
    } else {
      SegmentReadBack(p[0], |p| > 1, Format(rest), literal);
      ParseFormatFails(rest, "");
      NilLeft(rest);
      var head := Flush(literal) + [p[0]];
      Assoc(Flush(literal), [p[0]], rest);
      Split(head, rest);
      Split(head, ParseFrom(Format(rest), ""));
    }
  }

  /** A canonical pipeline survives printing and parsing exactly when no literal ending in a slash
      and a preset's name stands right before a preset. */
  lemma RoundTripExact(p: Pipeline)
    requires Canonical(p)
    ensures Parse(Format(p)) == p <==> !Hazardous(p)
  {
    if Hazardous(p) {
      ParseFormatFails(p, "");
    } else {
      ParseFormat(p, "");
    }
  }

  /** Printing what was parsed and parsing it again, for every input. */
  lemma ReparseExact(input: string)
    ensures Parse(Format(Parse(input))) == Parse(input) <==> !Hazardous(Parse(input))
  {
    ParseCanonical(input);
    RoundTripExact(Parse(input));
  }

  lemma {:induction false} NoSlashNoHazard(value: string)
    requires '/' !in value
    ensures !EndsLikePreset(value)
    decreases |value|
  {
    if value != [] {
      assert value[0] in value && forall c <- value[1..] :: c in value;
      NoSlashNoHazard(value[1..]);
    }
  }

  lemma EscapedSlashParses(rest: string)
    ensures Parse("\\/" + rest) == ParseFrom(rest, "/")
  {
    var s := "\\/" + rest;
    Split("\\/", rest);
    assert s[0] == '\\' && s[1..][0] == '/';
    assert Next(s) == Char('/', 2);
    NilLeft("/");
  }

  lemma NameThenPreset(first: string, second: string, literal: string)
    requires IsPreset(first) && IsPreset(second)
    ensures ParseFrom(first + ("/" + second + "/"), literal) == Flush(literal + first) + [RegexPreset(second)]
  {
    var close := "/" + second + "/";
    NamePrints(first, true);
    NoSlashInName(first);
    NoSlashNoHazard(first);
    LiteralReadBack(first, true, close, literal);
    SegmentReadBack(RegexPreset(second), false, "", literal + first);
    assert close + "" == close;
  }

  lemma EscapedNameParses(first: string, second: string)
    requires IsPreset(first) && IsPreset(second)
    ensures Parse("\\/" + (first + ("/" + second + "/"))) == [Literal("/" + first), RegexPreset(second)]
  {
    EscapedSlashParses(first + ("/" + second + "/"));
    NameThenPreset(first, second, "/");
  }

  /** The hazard is reachable by typing: an escaped slash before one preset's name and another preset
      after it parse to a pipeline that printing and parsing turns into a different one. */
  lemma HazardousInput(first: string, second: string)
    requires IsPreset(first) && IsPreset(second)
    ensures var input := "\\/" + (first + ("/" + second + "/"));
            Hazardous(Parse(input)) && Parse(Format(Parse(input))) != Parse(input)
  {
    EscapedNameParses(first, second);
    var p := [Literal("/" + first), RegexPreset(second)];
    ConsTake('/', first, 1);
    assert p[0].value[1..] == first;
    ReparseExact("\\/" + (first + ("/" + second + "/")));
  }

  /** A name already in the normal spelling: lower case, with single underscores inside. */
  predicate IsSnake(s: string) {
    && (forall i :: 0 <= i < |s| ==> 'a' <= s[i] <= 'z' || '0' <= s[i] <= '9' || s[i] == '_')
    && (forall i :: 0 < i < |s| ==> s[i - 1] != '_' || s[i] != '_')
    && (s != [] ==> s[0] != '_' && s[|s| - 1] != '_')
  }

  lemma {:induction false} SnakeChars(s: string, i: nat, separated: bool)
    requires IsSnake(s) && i <= |s|
    ensures NormalizeChars(s[i..], s[..i], separated) == s
    decreases |s| - i
  {
    if i < |s| {
      TailTail(s, i);
      assert s[..i] + [s[i]] == s[..i + 1];
      SnakeChars(s, i + 1, if s[i] == '_' then true else false);
    } else {
      assert s[..i] == s;
    }
  }

  /** Normalization leaves the normal spelling alone. */
  lemma SnakeFixed(s: string)
    requires IsSnake(s)
    ensures Normalized(s) == s
  {
    SnakeChars(s, 0, true);
    assert s[0..] == s && s[..0] == "";
    assert s != [] ==> !IsSpace(s[0]) && !IsSpace(s[|s| - 1]);
  }

  /** A name in the making: in the normal spelling but for an underscore it may end in. */
  predicate InTheMaking(s: string) {
    IsSnake(s) || (EndsWithUnderscore(s) && s[..|s| - 1] != "" && IsSnake(s[..|s| - 1]))
  }

  lemma CharKeepsMaking(out: string, separated: bool, c: char)
    requires InTheMaking(out) && (out == "" ==> separated)
    ensures var (out', separated') := NormalizeChar(out, separated, c);
            InTheMaking(out') && (out' == "" ==> separated')
  {
    var out' := NormalizeChar(out, separated, c).0;
    if out' == out + "_" {
      assert out'[..|out'| - 1] == out;
    } else if out' == out + "_" + [Lower(c)] {
      assert IsSnake(out);
    }
  }

  lemma {:induction false} CharsKeepMaking(s: string, out: string, separated: bool)
    requires InTheMaking(out) && (out == "" ==> separated)
    ensures InTheMaking(NormalizeChars(s, out, separated))
    decreases |s|
  {
    if s != [] {
      CharKeepsMaking(out, separated, s[0]);
      var (out', separated') := NormalizeChar(out, separated, s[0]);
      CharsKeepMaking(s[1..], out', separated');
    }
  }

  /** Whatever the input, normalization gives a name in the normal spelling; so the names it leaves
      alone are exactly those, and normalizing twice is normalizing once. */
  lemma NormalizedIsSnake(name: string)
    ensures IsSnake(Normalized(name))
    ensures Normalized(name) == name <==> IsSnake(name)
    ensures Normalized(Normalized(name)) == Normalized(name)
  {
    var chars := NormalizeChars(Trim(name), "", true);
    CharsKeepMaking(Trim(name), "", true);
    assert EndsWithUnderscore(chars) ==> TrimUnderscores(chars) == TrimUnderscores(chars[..|chars| - 1]);
    SnakeFixed(Normalized(name));
    if IsSnake(name) {
      SnakeFixed(name);
    }
  }

  lemma RemoveDigitsIsPreset()
    ensures IsPreset("remove_digits")
  {
    SnakeFixed("remove_digits");
  }

  /** One input on which printing and parsing again changes the template. */
  lemma HazardousExample()
    ensures var input := "\\/" + ("remove_digits" + ("/" + "remove_digits" + "/")); Parse(Format(Parse(input))) != Parse(input)
  {
    RemoveDigitsIsPreset();
    HazardousInput("remove_digits", "remove_digits");
  }

  /** How the characters with a meaning are written in a literal, and read. */
  lemma EscapesMeaning()
    ensures Format([Literal("{")]) == "{{" && Parse("{{") == [Literal("{")]
    ensures Format([Literal("}")]) == "}}" && Parse("}}") == [Literal("}")]
    ensures Format([Literal("[")]) == "\\[" && Parse("\\[") == [Literal("[")]
    ensures Format([Literal("]")]) == "\\]" && Parse("\\]") == [Literal("]")]
  {
    OneCharacter('{');
    OneCharacter('}');
    OneCharacter('[');
    OneCharacter(']');
  }

  lemma OneCharacter(c: char)
    ensures Format([Literal([c])]) == Escape([c], false)
    ensures Parse(Escape([c], false)) == [Literal([c])]
  {
    var p := [Literal([c])];
    assert p[1..] == [] && [c][1..] == "";
    assert FormatLiteral("", false) == "" && Format(p[1..]) == "";
    assert FormatLiteral([c], false) == Escape([c], false) + "";
    assert FormatSegment(p[0], |p| > 1) == FormatLiteral([c], false);
    assert Format(p) == FormatLiteral([c], false) + "";
    assert Canonical(p) && !Hazardous(p);
    RoundTripExact(p);
  }

  /** A backslash does not escape a brace: a token after it is a token. */
  lemma BackslashBeforeToken(name: string)
    requires IsIdentifier(name)
    ensures Parse("\\" + ("{" + name + "}" + "")) == [Literal("\\"), Token(name)]
  {
    var s := "\\" + ("{" + name + "}" + "");
    assert s[0] == '\\' && s[1..] == "{" + name + "}" + "";
    assert Next(s) == Char('\\', 1);
    SegmentReadBack(Token(name), false, "", "\\");
    NilLeft("\\");
  }

  // ---- parser and evaluator agree on names ----

  /** The names the evaluator dispatches on are those the parser knows. */
  lemma SameNames(name: string)
    ensures TakesNoArguments(name) || TakesArguments(name) <==> name in TRANSFORMS
  {
  }

  /** Whether the brackets of an invocation, if any, are closed at its end. */
  predicate WellBracketed(name: string) {
    var t := Trim(name);
    t != [] && ('(' in t ==> t[|t| - 1] == ')')
  }

  /** On a well-bracketed invocation the evaluator looks up the name the parser looked up. */
  lemma SameLookup(name: string)
    requires WellBracketed(name)
    ensures var t := Trim(name);
            ParseInvocation(name).Ok? && ParseInvocation(name).value.name == Normalized(t[..IndexOf(t, '(')])
  {
    var t := Trim(name);
    var open := IndexOf(t, '(');
    WholePrefix(t, open);
    TrimTwice(t[..open]);
  }

  /** An invocation without a name or with an open bracket is invalid. Of any other the evaluator
      reports an unknown transform exactly when the parser does not know the name, however spelled. */
  lemma TransformsAgree(ctx: Context, name: string, input: string)
    ensures var r := ApplyTransform(ctx, name, input);
            && ((r.Err? && r.error.UnknownTransform?) <==> WellBracketed(name) && !IsKnownTransform(Trim(name)))
            && (!WellBracketed(name) ==> r.Err? && r.error.InvalidTransform?)
  {
    if WellBracketed(name) {
      SameLookup(name);
      SameNames(ParseInvocation(name).value.name);
    }
  }

  lemma PresetsAgree(ctx: Context, name: string, input: string)
    ensures var r := ApplyRegexPreset(ctx, name, input);
            (r.Err? && r.error.UnknownRegexPreset?) <==> !IsKnownRegexPreset(name)
  {
  }

  predicate Unknown(r: Result<string, TokenError>) {
    r.Err? && (r.error.UnknownTransform? || r.error.UnknownRegexPreset?)
  }

  lemma TransformKnown(ctx: Context, name: string, value: string)
    requires WellFormed(Transform(name))
    ensures !Unknown(ApplyTransform(ctx, name, value))
  {
    TransformsAgree(ctx, name, value);
    TransformErrors(ctx, name, value);
  }

  lemma TransformErrors(ctx: Context, name: string, value: string)
    ensures var r := ApplyTransform(ctx, name, value); r.Err? ==> r.error.InvalidTransform? || r.error.UnknownTransform?
  {
  }

  lemma SegmentKnown(ctx: Context, segment: Segment, value: string)
    requires WellFormed(segment)
    ensures !Unknown(EvaluateSegment(ctx, segment, value))
  {
    match segment
    case Transform(name) => TransformKnown(ctx, name, value);
    case RegexPreset(name) => PresetsAgree(ctx, name, value);
    case _ =>
  }

  lemma {:induction false} CanonicalEvaluates(ctx: Context, p: Pipeline, value: string)
    requires Canonical(p)
    ensures !Unknown(EvaluateFrom(ctx, p, value))
    decreases |p|
  {
    if p != [] {
      SegmentKnown(ctx, p[0], value);
      var r := EvaluateSegment(ctx, p[0], value);
      if r.Ok? {
        CanonicalEvaluates(ctx, p[1..], r.value);
      }
    }
  }

  /** Evaluating what the parser made of any input never meets an unknown transform or preset. */
  lemma ParsedEvaluates(ctx: Context, input: string)
    ensures !Unknown(EvaluateFrom(ctx, Parse(input), ""))
  {
    ParseCanonical(input);
    CanonicalEvaluates(ctx, Parse(input), "");
  }

  // ---- what evaluation gives ----

  /** Evaluation takes up at any segment from the value of those before it, so a transform or preset
      acts on the whole value so far; the first error is final. */
  lemma {:induction false} EvaluationSplits(ctx: Context, p: Pipeline, q: Pipeline, value: string)
    ensures EvaluateFrom(ctx, p + q, value)
            == match EvaluateFrom(ctx, p, value) case Err(e) => Err(e) case Ok(v) => EvaluateFrom(ctx, q, v)
    decreases |p|
  {
    if p == [] {
      NilLeft(q);
    } else {
      TailConcat(p, q);
      match EvaluateSegment(ctx, p[0], value)
      case Err(e) =>
      case Ok(v) => EvaluationSplits(ctx, p[1..], q, v);
    }
  }

  /** Every text can be written as a template: printed as a literal, it evaluates to itself. */
  lemma TextEvaluates(ctx: Context, text: string)
    ensures EvaluateFrom(ctx, Parse(Format(if text == "" then [] else [Literal(text)])), "") == Ok(text)
  {
    var p := if text == "" then [] else [Literal(text)];
    RoundTripExact(p);
    if text != "" {
      NilLeft(text);
      assert EvaluateFrom(ctx, p[1..], text) == Ok(text);
    }
  }
}
