/** Blanking comments and literals of a strategy's source: frontend/src/lib/strategy-source.ts. The
    function in the browser jumps from the start of a region to its end; it is held against an
    automaton that reads one character at a time. */
module SourceBlanker {

  datatype State = Code | LineComment | Opening | BlockComment | Closing | Quoted(quote: char) | Escaped(quote: char)

  predicate IsQuote(c: char) { c == '"' || c == '\'' || c == '`' }

  predicate Begins(s: string, c: char) { s != [] && s[0] == c }

  /** Whether the automaton leaves its next character in place. */
  predicate Keeps(state: State, c: char, rest: string) {
    match state
    case Code => c != '/' || !(Begins(rest, '/') || Begins(rest, '*'))
    case Quoted(quote) => c == quote
    case _ => false
  }

  function Next(state: State, c: char, rest: string): State {
    match state
    case Code =>
      if c == '/' && Begins(rest, '/') then LineComment
      else if c == '/' && Begins(rest, '*') then Opening
      else if IsQuote(c) then Quoted(c)
      else Code
    case LineComment => if c == '\n' then Code else LineComment
    case Opening => BlockComment
    case BlockComment => if c == '*' && Begins(rest, '/') then Closing else BlockComment
    case Closing => Code
    case Quoted(quote) => if c == '\\' then Escaped(quote) else if c == quote then Code else Quoted(quote)
    case Escaped(quote) => Quoted(quote)
  }

  function Blank(c: char): char { if c == '\n' then '\n' else ' ' }

  function Blanked(s: string, state: State): (b: string)
    ensures |b| == |s|
  {
    if s == [] then []
    else
      var c, rest := s[0], s[1..];
      [if Keeps(state, c, rest) then c else Blank(c)] + Blanked(rest, Next(state, c, rest))
  }

  function Spaces(s: string): (b: string)
    ensures |b| == |s|
  {
    seq(|s|, i requires 0 <= i < |s| => Blank(s[i]))
  }

  // ---------------------------------------------------------------- what the result is

  function StateAt(s: string, state: State, i: nat): State
    requires i <= |s|
  {
    if i == 0 then state else StateAt(s[1..], Next(state, s[0], s[1..]), i - 1)
  }

  /** Every character stands where it stood, unless it belongs to a comment or to the inside of a
      literal: then it is a space, or the line break it was. */
  lemma {:induction false} BlankedAt(s: string, state: State, i: nat)
    requires i < |s|
    ensures Blanked(s, state)[i] == if Keeps(StateAt(s, state, i), s[i], s[i + 1..]) then s[i] else Blank(s[i])
    ensures Blanked(s, state)[i] == '\n' <==> s[i] == '\n'
    decreases i
  {
    if i > 0 {
      BlankedAt(s[1..], Next(state, s[0], s[1..]), i - 1);
      assert s[1..][i..] == s[i + 1..];
    } else {
      LineBreakStays(s, state);
    }
  }

  /** Line breaks survive in every region, and blanking makes no new ones. */
  lemma LineBreakStays(s: string, state: State)
    requires s != []
    ensures Blanked(s, state)[0] == '\n' <==> s[0] == '\n'
  {
  }

  /** What the second reading is in where the first is in `state`: the blanks of a comment read as
      code, those of a literal as the literal. */
  function Reread(state: State): State {
    match state
    case Quoted(quote) => Quoted(quote)
    case Escaped(quote) => Quoted(quote)
    case _ => Code
  }

  /** The quotes a literal can be in are quotes: not spaces, line breaks or backslashes. */
  predicate Proper(state: State) {
    match state
    case Quoted(quote) => IsQuote(quote)
    case Escaped(quote) => IsQuote(quote)
    case _ => true
  }

  lemma RereadOne(c: char, rest: string, state: State, blankedRest: string)
    requires Proper(state) && |blankedRest| == |rest|
    requires forall x :: x != ' ' && x != '\n' && Begins(blankedRest, x) ==> Begins(rest, x)
    ensures Proper(Next(state, c, rest))
    ensures var b := if Keeps(state, c, rest) then c else Blank(c);
            && (Keeps(Reread(state), b, blankedRest) || Blank(b) == b)
            && Next(Reread(state), b, blankedRest) == Reread(Next(state, c, rest))
  {
  }

  lemma BlankedBegins(s: string, state: State, x: char)
    requires x != ' ' && x != '\n' && Begins(Blanked(s, state), x)
    ensures Begins(s, x)
  {
  }

  /** Blanking what is blanked changes nothing. */
  lemma {:induction false} BlankedAgain(s: string, state: State)
    requires Proper(state)
    ensures Blanked(Blanked(s, state), Reread(state)) == Blanked(s, state)
    decreases |s|
  {
    if s != [] {
      var c, rest := s[0], s[1..];
      var next := Next(state, c, rest);
      forall x | x != ' ' && x != '\n' && Begins(Blanked(rest, next), x) ensures Begins(rest, x) {
        BlankedBegins(rest, next, x);
      }
      RereadOne(c, rest, state, Blanked(rest, next));
      BlankedAgain(rest, next);
      assert Blanked(s, state)[1..] == Blanked(rest, next);
    }
  }

  // ---------------------------------------------------------------- runs of one region

  lemma SpacesSplit(s: string, k: nat, n: nat)
    requires k + n <= |s|
    ensures Spaces(s[..k + n]) == Spaces(s[..k]) + Spaces(s[k..][..n])
    ensures s[k..][n..] == s[k + n..]
  {
  }

  /** A blanked character before a blanked run. */
  lemma LongerRun(s: string, n: nat, b: string, b1: string, tail: string)
    requires n < |s| && b == [Blank(s[0])] + b1 && b1 == Spaces(s[1..][..n]) + tail
    ensures b == Spaces(s[..n + 1]) + tail && s[1..][n..] == s[n + 1..]
  {
    SpacesSplit(s, 1, n);
    assert Spaces(s[..1]) == [Blank(s[0])];
    assert b == Spaces(s[..1]) + (Spaces(s[1..][..n]) + tail);
  }

  /** A character that leaves the automaton inside the region. */
  lemma StaysInside(s: string, state: State, next: State)
    requires s != [] && !Keeps(state, s[0], s[1..]) && Next(state, s[0], s[1..]) == next
    ensures Blanked(s, state) == [Blank(s[0])] + Blanked(s[1..], next)
  {
  }

  /** `end` is where a line comment read from the start of `s` stops. */
  predicate LineEndsAt(s: string, end: nat) {
    end <= |s| && (forall i :: 0 <= i < end ==> s[i] != '\n') && (end < |s| ==> s[end] == '\n')
  }

  lemma {:induction false} LineRun(s: string, end: nat)
    requires LineEndsAt(s, end)
    ensures Blanked(s, LineComment) == Spaces(s[..end]) + Blanked(s[end..], Code)
    decreases end
  {
    if end > 0 {
      var rest := s[1..];
      LineRun(rest, end - 1);
      StaysInside(s, LineComment, LineComment);
      LongerRun(s, end - 1, Blanked(s, LineComment), Blanked(rest, LineComment), Blanked(rest[end - 1..], Code));
    } else if s != [] {
      LineBreakEnds(s);
    }
  }

  lemma LineBreakEnds(s: string)
    requires s != [] && s[0] == '\n'
    ensures Blanked(s, LineComment) == Blanked(s, Code)
  {
  }

  predicate Closes(s: string, i: nat) { i + 1 < |s| && s[i] == '*' && s[i + 1] == '/' }

  /** `closer` is where a block comment's first closer stands, or the end. */
  predicate BlockEndsAt(s: string, closer: nat) {
    closer <= |s| && (forall i :: 0 <= i < closer ==> !Closes(s, i)) && (closer < |s| ==> Closes(s, closer))
  }

  function Past(s: string, closer: nat): nat { if closer < |s| then closer + 2 else |s| }

  lemma BlockEndsLater(s: string, closer: nat)
    requires BlockEndsAt(s, closer) && closer > 0
    ensures s != [] && !Closes(s, 0)
    ensures BlockEndsAt(s[1..], closer - 1) && Past(s[1..], closer - 1) == Past(s, closer) - 1
  {
    forall i | 0 <= i <= closer - 1 ensures Closes(s[1..], i) == Closes(s, i + 1) {
    }
  }

  /** A block comment runs to just past its first closer, or to the end. */
  lemma {:induction false} BlockRun(s: string, closer: nat)
    requires BlockEndsAt(s, closer)
    ensures Past(s, closer) <= |s|
    ensures Blanked(s, BlockComment) == Spaces(s[..Past(s, closer)]) + Blanked(s[Past(s, closer)..], Code)
    decreases closer
  {
    if closer > 0 {
      var rest, stop := s[1..], Past(s, closer);
      BlockEndsLater(s, closer);
      BlockRun(rest, closer - 1);
      StaysInside(s, BlockComment, BlockComment);
      LongerRun(s, stop - 1, Blanked(s, BlockComment), Blanked(rest, BlockComment), Blanked(rest[stop - 1..], Code));
    } else if s != [] {
      StaysInside(s, BlockComment, Closing);
      StaysInside(s[1..], Closing, Code);
      assert s[1..][1..] == s[2..];
      assert Spaces(s[..2]) == [' ', ' '];
    }
  }

  lemma PlainStep(s: string, quote: char)
    requires s != [] && s[0] != quote && s[0] != '\\'
    ensures Blanked(s, Quoted(quote)) == [Blank(s[0])] + Blanked(s[1..], Quoted(quote))
  {
  }

  /** A backslash takes the next character with it, if there is one. */
  lemma EscapeStep(s: string, quote: char)
    requires s != [] && s[0] == '\\' && quote != '\\'
    ensures Blanked(s, Quoted(quote))
            == if |s| == 1 then [' '] else [' ', Blank(s[1])] + Blanked(s[2..], Quoted(quote))
  {
    var rest := s[1..];
    assert Blanked(s, Quoted(quote)) == [' '] + Blanked(rest, Escaped(quote));
    if |s| > 1 {
      assert rest[1..] == s[2..];
      assert Blanked(rest, Escaped(quote)) == [Blank(s[1])] + Blanked(s[2..], Quoted(quote));
    }
  }

  /** From the opening slashes up to the line break or the end. */
  lemma LineRegion(s: string, end: nat)
    requires |s| >= 2 && s[0] == '/' && s[1] == '/' && 1 <= end && LineEndsAt(s[1..], end - 1)
    ensures end <= |s| && Blanked(s, Code) == Spaces(s[..end]) + Blanked(s[end..], Code)
  {
    var rest := s[1..];
    StaysInside(s, Code, LineComment);
    LineRun(rest, end - 1);
    LongerRun(s, end - 1, Blanked(s, Code), Blanked(rest, LineComment), Blanked(rest[end - 1..], Code));
  }

  /** From the opening slash to just past the closer or to the end. */
  lemma BlockRegion(s: string, closer: nat)
    requires |s| >= 2 && s[0] == '/' && s[1] == '*' && BlockEndsAt(s[2..], closer)
    ensures var stop := Past(s[2..], closer) + 2;
            stop <= |s| && Blanked(s, Code) == Spaces(s[..stop]) + Blanked(s[stop..], Code)
  {
    var star, inside, stop := s[1..], s[2..], Past(s[2..], closer);
    assert star[1..] == inside;
    StaysInside(s, Code, Opening);
    StaysInside(star, Opening, BlockComment);
    BlockRun(inside, closer);
    LongerRun(star, stop, Blanked(star, Opening), Blanked(inside, BlockComment), Blanked(inside[stop..], Code));
    LongerRun(s, stop + 1, Blanked(s, Code), Blanked(star, Opening), Blanked(star[stop + 1..], Code));
  }

  // ---------------------------------------------------------------- the function in the browser

  /** `indexOf`, with the length for its -1. */
  function IndexOfLineBreak(s: string, from: nat): (end: nat)
    requires from <= |s|
    ensures from <= end <= |s| && (forall i :: from <= i < end ==> s[i] != '\n') && (end < |s| ==> s[end] == '\n')
    decreases |s| - from
  {
    if from == |s| || s[from] == '\n' then from else IndexOfLineBreak(s, from + 1)
  }

  function IndexOfCloser(s: string, from: nat): (end: nat)
    requires from <= |s|
    ensures from <= end <= |s| && (forall i :: from <= i < end ==> !Closes(s, i)) && (end < |s| ==> Closes(s, end))
    decreases |s| - from
  {
    if from == |s| || Closes(s, from) then from else IndexOfCloser(s, from + 1)
  }

  /** How far a literal's scan has got: the text from `start` to `cursor` is blanked, and the rest
      still stands inside the literal. A cursor past the end has blanked everything. */
  ghost predicate Scanned(source: string, start: nat, cursor: nat, quote: char) {
    && start <= cursor <= |source| + 1 && start <= |source|
    && Blanked(source[start..], Quoted(quote))
       == if cursor <= |source| then Spaces(source[start..cursor]) + Blanked(source[cursor..], Quoted(quote))
          else Spaces(source[start..])
  }

  lemma ScanPlain(source: string, start: nat, cursor: nat, quote: char)
    requires Scanned(source, start, cursor, quote) && cursor < |source|
    requires source[cursor] != quote && source[cursor] != '\\'
    ensures Scanned(source, start, cursor + 1, quote)
  {
    PlainStep(source[cursor..], quote);
    assert source[cursor..][1..] == source[cursor + 1..];
    assert Spaces(source[start..cursor + 1]) == Spaces(source[start..cursor]) + [Blank(source[cursor])];
  }

  lemma ScanEscape(source: string, start: nat, cursor: nat, quote: char)
    requires Scanned(source, start, cursor, quote) && cursor < |source|
    requires source[cursor] == '\\' && quote != '\\'
    ensures Scanned(source, start, cursor + 2, quote)
  {
    EscapeStep(source[cursor..], quote);
    if cursor + 2 <= |source| {
      TwoMoreSpaces(source, start, cursor);
      assert source[cursor..][2..] == source[cursor + 2..];
      Associates(Spaces(source[start..cursor]), [' ', Blank(source[cursor + 1])], Blanked(source[cursor + 2..], Quoted(quote)));
    } else {
      LastSpace(source, start, cursor);
    }
  }

  lemma Associates(a: string, b: string, c: string)
    ensures a + (b + c) == a + b + c
  {
  }

  lemma LastSpace(source: string, start: nat, cursor: nat)
    requires start <= cursor && cursor + 1 == |source| && source[cursor] != '\n'
    ensures Spaces(source[start..]) == Spaces(source[start..cursor]) + [' ']
  {
  }

  lemma TwoMoreSpaces(source: string, start: nat, cursor: nat)
    requires start <= cursor && cursor + 2 <= |source|
    ensures Spaces(source[start..cursor + 2])
            == Spaces(source[start..cursor]) + [Blank(source[cursor]), Blank(source[cursor + 1])]
  {
  }

  /** The scan of a literal's inside from `start`: up to its closing quote, or past the end. */
  method LiteralEnd(source: string, start: nat, quote: char) returns (cursor: nat)
    requires start <= |source| && IsQuote(quote)
    ensures Scanned(source, start, cursor, quote) && (cursor < |source| ==> source[cursor] == quote)
  {
    cursor := start;
    assert source[start..start] == [];
    while cursor < |source|
      invariant Scanned(source, start, cursor, quote)
      decreases |source| + 1 - cursor
    {
      var current := source[cursor];
      if current == '\\' {
        ScanEscape(source, start, cursor, quote);
        cursor := cursor + 2;
        continue;
      }
      if current == quote {
        break;
      }
      ScanPlain(source, start, cursor, quote);
      cursor := cursor + 1;
    }
  }

  lemma LiteralOpens(source: string, index: nat)
    requires index < |source| && IsQuote(source[index])
    ensures Blanked(source[index..], Code) == [source[index]] + Blanked(source[index + 1..], Quoted(source[index]))
  {
    assert source[index..][1..] == source[index + 1..];
  }

  /** A closed literal: its quotes stay, its inside is blanked. */
  lemma ClosedLiteral(source: string, index: nat, cursor: nat)
    requires index < |source| && IsQuote(source[index]) && Scanned(source, index + 1, cursor, source[index])
    requires cursor < |source| && source[cursor] == source[index]
    ensures Blanked(source[index..], Code)
            == [source[index]] + Spaces(source[index + 1..cursor]) + [source[index]] + Blanked(source[cursor + 1..], Code)
  {
    var quote := source[index];
    LiteralOpens(source, index);
    ClosingQuote(source[cursor..], quote);
    assert source[cursor..][1..] == source[cursor + 1..];
    FourPieces([quote], Spaces(source[index + 1..cursor]), [quote], Blanked(source[cursor + 1..], Code));
  }

  lemma FourPieces(a: string, b: string, c: string, d: string)
    ensures a + (b + (c + d)) == a + b + c + d
  {
  }

  /** A literal that is never closed is blanked to the end. */
  lemma UnclosedLiteral(source: string, index: nat, cursor: nat)
    requires index < |source| && IsQuote(source[index]) && Scanned(source, index + 1, cursor, source[index])
    requires cursor >= |source|
    ensures Blanked(source[index..], Code) == [source[index]] + Spaces(source[index + 1..])
  {
    LiteralOpens(source, index);
    if cursor == |source| {
      assert source[cursor..] == [] && source[index + 1..cursor] == source[index + 1..];
      assert Blanked([], Quoted(source[index])) == [];
    }
  }

  lemma ClosingQuote(s: string, quote: char)
    requires s != [] && s[0] == quote && quote != '\\'
    ensures Blanked(s, Quoted(quote)) == [quote] + Blanked(s[1..], Code)
  {
  }

  /** What the main loop has done when it stands at `index`. */
  ghost predicate Reached(source: string, out: seq<char>, index: nat) {
    && index <= |source| == |out|
    && (forall k :: index <= k < |source| ==> out[k] == source[k])
    && Blanked(source, Code) == out[..index] + Blanked(source[index..], Code)
  }

  /** A region from `index` to `stop` is replaced by what the automaton makes of it. */
  lemma RegionDone(source: string, out: seq<char>, out': seq<char>, index: nat, stop: nat, region: string)
    requires Reached(source, out, index) && index <= stop <= |source|
    requires |region| == stop - index && out' == out[..index] + region + out[stop..]
    requires Blanked(source[index..], Code) == region + Blanked(source[stop..], Code)
    ensures Reached(source, out', stop)
  {
    assert out'[..stop] == out[..index] + region;
    assert forall k :: stop <= k < |out| ==> out'[k] == out[k];
  }

  lemma PlainCode(source: string, index: nat)
    requires index < |source| && !IsQuote(source[index])
    requires source[index] != '/' || index + 1 == |source| || (source[index + 1] != '/' && source[index + 1] != '*')
    ensures Blanked(source[index..], Code) == [source[index]] + Blanked(source[index + 1..], Code)
  {
    assert source[index..][1..] == source[index + 1..];
  }

  /** `out` after blanking a range. */
  function RangeBlanked(out: seq<char>, from: nat, to: nat): seq<char>
    requires from <= to <= |out|
  {
    out[..from] + Spaces(out[from..to]) + out[to..]
  }

  method BlankRange(out: array<char>, from: nat, to: nat)
    requires from <= to <= out.Length
    modifies out
    ensures out[..] == RangeBlanked(old(out[..]), from, to)
  {
    for i := from to to
      invariant forall k :: 0 <= k < from ==> out[k] == old(out[k])
      invariant forall k :: from <= k < i ==> out[k] == Blank(old(out[k]))
      invariant forall k :: i <= k < out.Length ==> out[k] == old(out[k])
    {
      if out[i] != '\n' {
        out[i] := ' ';
      }
    }
    assert old(out[..])[from..to] == old(out[from..to]);
  }

  lemma SameAhead(source: string, out: seq<char>, index: nat, from: nat, to: nat)
    requires Reached(source, out, index) && index <= from <= to <= |source|
    ensures out[from..to] == source[from..to] == source[index..][from - index..to - index]
    ensures source[to..] == source[index..][to - index..]
  {
  }

  lemma LineDone(source: string, out: seq<char>, index: nat)
    requires Reached(source, out, index) && index + 1 < |source| && source[index] == '/' && source[index + 1] == '/'
    ensures var end := IndexOfLineBreak(source, index); index < end && Reached(source, RangeBlanked(out, index, end), end)
  {
    var end, s := IndexOfLineBreak(source, index), source[index..];
    assert LineEndsAt(s[1..], end - index - 1);
    LineRegion(s, end - index);
    SameAhead(source, out, index, index, end);
    RegionDone(source, out, RangeBlanked(out, index, end), index, end, Spaces(out[index..end]));
  }

  lemma BlockDone(source: string, out: seq<char>, index: nat)
    requires Reached(source, out, index) && index + 1 < |source| && source[index] == '/' && source[index + 1] == '*'
    ensures var stop := Past(source, IndexOfCloser(source, index + 2));
            index < stop <= |source| && Reached(source, RangeBlanked(out, index, stop), stop)
  {
    var s, closer := source[index..], IndexOfCloser(source, index + 2);
    var stop := Past(source, closer);
    CloserSeenFromHere(source, index, closer);
    assert s[0] == '/' && s[1] == '*';
    BlockRegion(s, closer - index - 2);
    assert Blanked(s, Code) == Spaces(s[..stop - index]) + Blanked(s[stop - index..], Code);
    SameAhead(source, out, index, index, stop);
    RegionDone(source, out, RangeBlanked(out, index, stop), index, stop, Spaces(out[index..stop]));
  }

  lemma CloserSeenFromHere(source: string, index: nat, closer: nat)
    requires index + 2 <= closer <= |source|
    requires (forall i :: index + 2 <= i < closer ==> !Closes(source, i)) && (closer < |source| ==> Closes(source, closer))
    ensures source[index..][2..] == source[index + 2..]
    ensures BlockEndsAt(source[index + 2..], closer - index - 2)
    ensures Past(source[index + 2..], closer - index - 2) == Past(source, closer) - index - 2
  {
    var inside := source[index + 2..];
    forall i | 0 <= i <= closer - index - 2 ensures Closes(inside, i) == Closes(source, index + 2 + i) {
    }
  }

  lemma ClosedLiteralDone(source: string, out: seq<char>, index: nat, cursor: nat)
    requires Reached(source, out, index) && index < |source| && IsQuote(source[index])
    requires Scanned(source, index + 1, cursor, source[index]) && cursor < |source| && source[cursor] == source[index]
    ensures Reached(source, RangeBlanked(out, index + 1, cursor), cursor + 1)
  {
    var inside := Spaces(out[index + 1..cursor]);
    var region := [source[index]] + inside + [source[index]];
    ClosedLiteral(source, index, cursor);
    SameAhead(source, out, index, index + 1, cursor);
    ClosedPutTogether(out, index, cursor, inside);
    RegionDone(source, out, RangeBlanked(out, index + 1, cursor), index, cursor + 1, region);
  }

  lemma ClosedPutTogether(out: seq<char>, index: nat, cursor: nat, inside: seq<char>)
    requires index < cursor < |out| && |inside| == cursor - index - 1
    ensures out[..index + 1] + inside + out[cursor..] == out[..index] + ([out[index]] + inside + [out[cursor]]) + out[cursor + 1..]
  {
  }

  lemma UnclosedLiteralDone(source: string, out: seq<char>, index: nat, cursor: nat)
    requires Reached(source, out, index) && index < |source| && IsQuote(source[index])
    requires Scanned(source, index + 1, cursor, source[index]) && cursor >= |source|
    ensures Reached(source, RangeBlanked(out, index + 1, |source|), |source|)
  {
    var inside := Spaces(out[index + 1..]);
    UnclosedLiteral(source, index, cursor);
    SameAhead(source, out, index, index + 1, |source|);
    UnclosedPutTogether(source, out, index, inside);
    RegionDone(source, out, RangeBlanked(out, index + 1, |source|), index, |source|, [source[index]] + inside);
  }

  lemma UnclosedPutTogether(source: string, out: seq<char>, index: nat, inside: seq<char>)
    requires index < |out| == |source| && inside == Spaces(out[index + 1..])
    ensures RangeBlanked(out, index + 1, |out|) == out[..index] + ([out[index]] + inside) + out[|out|..]
    ensures source[index + 1..|source|] == source[index + 1..] && Blanked(source[|source|..], Code) == []
  {
    assert out[index + 1..|out|] == out[index + 1..];
  }

  method BlankLine(source: string, out: array<char>, index: nat) returns (next: nat)
    requires Reached(source, out[..], index) && index + 1 < |source| && source[index] == '/' && source[index + 1] == '/'
    modifies out
    ensures index < next && Reached(source, out[..], next)
  {
    next := IndexOfLineBreak(source, index);
    LineDone(source, out[..], index);
    BlankRange(out, index, next);
  }

  method BlankBlock(source: string, out: array<char>, index: nat) returns (next: nat)
    requires Reached(source, out[..], index) && index + 1 < |source| && source[index] == '/' && source[index + 1] == '*'
    modifies out
    ensures index < next && Reached(source, out[..], next)
  {
    var end := IndexOfCloser(source, index + 2);
    next := if end == |source| then |source| else end + 2;
    BlockDone(source, out[..], index);
    BlankRange(out, index, next);
  }

  method BlankLiteral(source: string, out: array<char>, index: nat) returns (next: nat)
    requires Reached(source, out[..], index) && index < |source| && IsQuote(source[index])
    modifies out
    ensures index < next && Reached(source, out[..], next)
  {
    var cursor := LiteralEnd(source, index + 1, source[index]);
    if cursor < |source| {
      ClosedLiteralDone(source, out[..], index, cursor);
    } else {
      UnclosedLiteralDone(source, out[..], index, cursor);
    }
    BlankRange(out, index + 1, if cursor <= |source| then cursor else |source|);
    next := if cursor + 1 <= |source| then cursor + 1 else |source|;
  }

  lemma CodeDone(source: string, out: seq<char>, index: nat)
    requires Reached(source, out, index) && index < |source| && !IsQuote(source[index])
    requires source[index] != '/' || index + 1 == |source| || (source[index + 1] != '/' && source[index + 1] != '*')
    ensures Reached(source, out, index + 1)
  {
    PlainCode(source, index);
    RegionDone(source, out, out, index, index + 1, [source[index]]);
  }

  /** The function in the browser computes what the automaton computes. */
  method BlankCommentsAndLiterals(source: string) returns (blanked: string)
    ensures blanked == Blanked(source, Code)
  {
    var length := |source|;
    var out := new char[length](i requires 0 <= i < length => source[i]);
    var index := 0;
    assert out[..] == source;
    while index < length
      invariant Reached(source, out[..], index)
    {
      var c := source[index];
      if c == '/' && index + 1 < length && source[index + 1] == '/' {
        index := BlankLine(source, out, index);
        continue;
      }
      if c == '/' && index + 1 < length && source[index + 1] == '*' {
        index := BlankBlock(source, out, index);
        continue;
      }
      if IsQuote(c) {
        index := BlankLiteral(source, out, index);
        continue;
      }
      CodeDone(source, out[..], index);
      index := index + 1;
    }
    blanked := out[..];
  }
}
