/** What frontend/src/lib/strategy-source.ts blanks of a source that is written down as its tokens: the
    comments whole, the literals inside, and nothing else. */
module SourceTokens {
  import opened SourceBlanker

  /** A character of a literal, or a backslash with the character it takes along. */
  datatype Unit = Just(c: char) | Escape(c: char)

  datatype Token =
    | Plain(c: char)
    | Line(text: string)                         // from // up to the line break
    | Block(text: string)                        // between the opener and the first closer
    | Literal(quote: char, inside: seq<Unit>)
    | OpenBlock(text: string)                    // never closed
    | OpenLiteral(quote: char, inside: seq<Unit>, backslash: bool)

  function Inside(units: seq<Unit>): string {
    if units == [] then []
    else (match units[0] case Just(c) => [c] case Escape(c) => ['\\', c]) + Inside(units[1..])
  }

  function Text(token: Token): string {
    match token
    case Plain(c) => [c]
    case Line(text) => "//" + text
    case Block(text) => "/*" + (text + "*/")
    case Literal(quote, inside) => [quote] + Inside(inside) + [quote]
    case OpenBlock(text) => "/*" + text
    case OpenLiteral(quote, inside, backslash) => [quote] + (Inside(inside) + if backslash then ['\\'] else [])
  }

  function Source(tokens: seq<Token>): string {
    if tokens == [] then [] else Text(tokens[0]) + Source(tokens[1..])
  }

  /** What stays of a token. */
  function Shown(token: Token): string {
    match token
    case Plain(c) => [c]
    case Literal(quote, inside) => [quote] + Spaces(Inside(inside)) + [quote]
    case OpenLiteral(quote, inside, backslash) => [quote] + Spaces(Text(token)[1..])
    case _ => Spaces(Text(token))
  }

  function ShownAll(tokens: seq<Token>): string {
    if tokens == [] then [] else Shown(tokens[0]) + ShownAll(tokens[1..])
  }

  /** What opens and closes a string or a template. */
  predicate Quotes(c: char) { c in {'"', '\'', '`'} }

  predicate UnitsOf(quote: char, units: seq<Unit>) {
    forall i :: 0 <= i < |units| ==> units[i].Just? ==> units[i].c != quote && units[i].c != '\\'
  }

  /** The token is one, read before what follows it: a slash opens no comment, a line comment goes up to
      the line break, a block comment up to its first closer, a literal up to its first bare quote. */
  predicate IsToken(token: Token, after: string) {
    match token
    case Plain(c) => !Quotes(c) && (c == '/' ==> !Begins(after, '/') && !Begins(after, '*'))
    case Line(text) => '\n' !in text && (after == [] || after[0] == '\n')
    case Block(text) => forall i :: 0 <= i < |text| ==> !Closes(text + "*/", i)
    case Literal(quote, inside) => Quotes(quote) && UnitsOf(quote, inside)
    case OpenBlock(text) => after == [] && forall i :: 0 <= i < |text| ==> !Closes(text, i)
    case OpenLiteral(quote, inside, _) => after == [] && Quotes(quote) && UnitsOf(quote, inside)
  }

  predicate AreTokens(tokens: seq<Token>) {
    tokens == [] || (IsToken(tokens[0], Source(tokens[1..])) && AreTokens(tokens[1..]))
  }

  lemma {:induction false} InsideRun(quote: char, units: seq<Unit>, after: string)
    requires IsQuote(quote) && UnitsOf(quote, units)
    ensures Blanked(Inside(units) + after, Quoted(quote)) == Spaces(Inside(units)) + Blanked(after, Quoted(quote))
    decreases |units|
  {
    if units == [] {
      assert Inside(units) + after == after;
    } else {
      InsideRun(quote, units[1..], after);
      match units[0]
      case Just(c) => JustRun(quote, c, Inside(units[1..]), after);
      case Escape(c) => EscapeRun(quote, c, Inside(units[1..]), after);
    }
  }

  lemma JustRun(quote: char, c: char, rest: string, after: string)
    requires c != quote && c != '\\' && Blanked(rest + after, Quoted(quote)) == Spaces(rest) + Blanked(after, Quoted(quote))
    ensures Blanked([c] + rest + after, Quoted(quote)) == Spaces([c] + rest) + Blanked(after, Quoted(quote))
  {
    var s := [c] + rest + after;
    assert s[0] == c && s[1..] == rest + after;
    PlainStep(s, quote);
    assert Spaces([c] + rest) == [Blank(c)] + Spaces(rest);
  }

  lemma EscapeRun(quote: char, c: char, rest: string, after: string)
    requires IsQuote(quote) && Blanked(rest + after, Quoted(quote)) == Spaces(rest) + Blanked(after, Quoted(quote))
    ensures Blanked(['\\', c] + rest + after, Quoted(quote)) == Spaces(['\\', c] + rest) + Blanked(after, Quoted(quote))
  {
    var s := ['\\', c] + rest + after;
    assert s[0] == '\\' && s[1] == c && s[2..] == rest + after;
    EscapeStep(s, quote);
    assert Spaces(['\\', c] + rest) == [' ', Blank(c)] + Spaces(rest);
  }

  lemma LiteralIsShown(quote: char, units: seq<Unit>, after: string)
    requires IsQuote(quote) && UnitsOf(quote, units)
    ensures Blanked([quote] + Inside(units) + [quote] + after, Code) == [quote] + Spaces(Inside(units)) + [quote] + Blanked(after, Code)
  {
    var s, body := [quote] + Inside(units) + [quote] + after, Inside(units) + ([quote] + after);
    assert s[0] == quote && s[1..] == body;
    assert Blanked(s, Code) == [quote] + Blanked(body, Quoted(quote));
    InsideRun(quote, units, [quote] + after);
    assert ([quote] + after)[1..] == after;
    ClosingQuote([quote] + after, quote);
  }

  lemma OpenLiteralIsShown(quote: char, units: seq<Unit>, backslash: bool)
    requires IsQuote(quote) && UnitsOf(quote, units)
    ensures var body := Inside(units) + if backslash then ['\\'] else [];
            Blanked([quote] + body, Code) == [quote] + Spaces(body)
  {
    var end: string := if backslash then ['\\'] else [];
    var s := [quote] + (Inside(units) + end);
    assert s[0] == quote && s[1..] == Inside(units) + end;
    assert Blanked(s, Code) == [quote] + Blanked(Inside(units) + end, Quoted(quote));
    InsideRun(quote, units, end);
    if backslash {
      EscapeStep(end, quote);
    }
    assert Spaces(Inside(units) + end) == Spaces(Inside(units)) + Spaces(end);
    assert Blanked(end, Quoted(quote)) == Spaces(end);
  }

  lemma LineIsShown(text: string, after: string)
    requires '\n' !in text && (after == [] || after[0] == '\n')
    ensures Blanked("//" + text + after, Code) == Spaces("//" + text) + Blanked(after, Code)
  {
    var s, end := "//" + text + after, |text| + 2;
    assert s[..end] == "//" + text && s[end..] == after;
    forall i | 0 <= i < end - 1 ensures s[1..][i] != '\n' {
      assert i > 0 ==> s[1..][i] == text[i - 1];
    }
    LineRegion(s, end);
  }

  lemma BlockIsShown(text: string, after: string)
    requires forall i :: 0 <= i < |text| ==> !Closes(text + "*/", i)
    ensures Blanked("/*" + (text + "*/") + after, Code) == Spaces("/*" + (text + "*/")) + Blanked(after, Code)
  {
    var s := "/*" + (text + "*/") + after;
    var inside := s[2..];
    assert inside == text + "*/" + after;
    forall i | 0 <= i < |text| ensures !Closes(inside, i) {
      assert !Closes(text + "*/", i);
      assert inside[i] == (text + "*/")[i] && inside[i + 1] == (text + "*/")[i + 1];
    }
    BlockRegion(s, |text|);
    assert s[..|text| + 4] == "/*" + (text + "*/") && s[|text| + 4..] == after;
  }

  lemma OpenBlockIsShown(text: string)
    requires forall i :: 0 <= i < |text| ==> !Closes(text, i)
    ensures Blanked("/*" + text, Code) == Spaces("/*" + text)
  {
    var s := "/*" + text;
    assert s[2..] == text;
    BlockRegion(s, |text|);
    assert s[..|s|] == s && Blanked(s[|s|..], Code) == [];
  }

  lemma TokenIsShown(token: Token, after: string)
    requires IsToken(token, after)
    ensures Blanked(Text(token) + after, Code) == Shown(token) + Blanked(after, Code)
  {
    match token
    case Plain(c) =>
      assert ([c] + after)[1..] == after;
    case Line(text) => LineIsShown(text, after);
    case Block(text) => BlockIsShown(text, after);
    case Literal(quote, inside) => LiteralIsShown(quote, inside, after);
    case OpenBlock(text) =>
      OpenBlockIsShown(text);
      assert Text(token) + after == Text(token);
    case OpenLiteral(quote, inside, backslash) =>
      OpenLiteralIsShown(quote, inside, backslash);
      assert Text(token) + after == Text(token);
      assert Text(token)[1..] == Inside(inside) + if backslash then ['\\'] else [];
  }

  /** A source written as tokens comes out with every comment and every inside of a literal blanked, and
      everything else in its place. */
  lemma {:induction false} TokensAreShown(tokens: seq<Token>)
    requires AreTokens(tokens)
    ensures Blanked(Source(tokens), Code) == ShownAll(tokens)
    decreases |tokens|
  {
    if tokens != [] {
      TokenIsShown(tokens[0], Source(tokens[1..]));
      TokensAreShown(tokens[1..]);
    }
  }

  // ---------------------------------------------------------------- every source is tokens

  /** The inside of a literal up to its first bare quote, to the end, or to a last lone backslash. */
  lemma {:induction false} InsideOf(s: string, quote: char) returns (units: seq<Unit>, after: string)
    requires IsQuote(quote)
    ensures UnitsOf(quote, units) && s == Inside(units) + after
    ensures after == [] || after == ['\\'] || after[0] == quote
    decreases |s|
  {
    if s == [] || s == ['\\'] || s[0] == quote {
      units, after := [], s;
    } else {
      var n := if s[0] == '\\' then 2 else 1;
      var more;
      more, after := InsideOf(s[n..], quote);
      units := [if s[0] == '\\' then Escape(s[1]) else Just(s[0])] + more;
      assert units[1..] == more;
      assert s == s[..n] + s[n..];
      assert s[..n] + (Inside(more) + after) == s[..n] + Inside(more) + after;
    }
  }

  /** The token a source begins with. */
  lemma FirstToken(s: string) returns (token: Token, after: string)
    requires s != []
    ensures IsToken(token, after) && s == Text(token) + after && |after| < |s|
  {
    if |s| >= 2 && s[0] == '/' && s[1] == '/' {
      var end := IndexOfLineBreak(s, 2);
      token, after := Line(s[2..end]), s[end..];
    } else if |s| >= 2 && s[0] == '/' && s[1] == '*' {
      token, after := FirstBlock(s);
    } else if IsQuote(s[0]) {
      token, after := FirstLiteral(s);
    } else {
      token, after := Plain(s[0]), s[1..];
    }
  }

  lemma FirstBlock(s: string) returns (token: Token, after: string)
    requires |s| >= 2 && s[0] == '/' && s[1] == '*'
    ensures IsToken(token, after) && s == Text(token) + after && |after| < |s|
  {
    var closer := IndexOfCloser(s, 2);
    if closer == |s| {
      token, after := OpenBlock(s[2..]), [];
      forall i | 0 <= i < |s| - 2 ensures !Closes(s[2..], i) {
        assert !Closes(s, i + 2);
      }
    } else {
      var text := s[2..closer];
      token, after := Block(text), s[closer + 2..];
      forall i | 0 <= i < |text| ensures !Closes(text + "*/", i) {
        assert !Closes(s, i + 2);
        assert (text + "*/")[i] == s[i + 2] && (text + "*/")[i + 1] == s[i + 3];
      }
      assert s == "/*" + (text + "*/") + after;
    }
  }

  lemma FirstLiteral(s: string) returns (token: Token, after: string)
    requires s != [] && IsQuote(s[0])
    ensures IsToken(token, after) && s == Text(token) + after && |after| < |s|
  {
    var units, rest := InsideOf(s[1..], s[0]);
    if rest != [] && rest[0] == s[0] {
      token, after := Literal(s[0], units), rest[1..];
    } else {
      token, after := OpenLiteral(s[0], units, rest != []), [];
    }
  }

  /** Every string at all is a list of tokens, so what is blanked of it is said by `TokensAreShown`. */
  lemma {:induction false} EverySourceIsTokens(s: string) returns (tokens: seq<Token>)
    ensures AreTokens(tokens) && Source(tokens) == s && Blanked(s, Code) == ShownAll(tokens)
    decreases |s|
  {
    if s == [] {
      tokens := [];
    } else {
      var token, after := FirstToken(s);
      var more := EverySourceIsTokens(after);
      tokens := [token] + more;
      assert tokens[1..] == more;
    }
    TokensAreShown(tokens);
  }
}
