/** The newline-delimited stream of drafts: the chunked reader of frontend/src/lib/api.ts against the
    lines that backend/src/routes/submissions.ts writes. */
module NdjsonStream {
  import opened Collections
  import opened Text

  /** What the reader yields, and the line it stopped at if one did not parse. */
  datatype Outcome<+D> = Outcome(drafts: seq<D>, malformed: Option<string>)

  /** `JSON.stringify` and `JSON.parse`; `None` stands for a syntax error. */
  datatype Codec<!D> = Codec(encode: D -> string, parse: string -> Option<D>)

  // ---------------------------------------------------------------- the whole text at once

  /** The drafts on a list of lines, up to the first one that does not parse; blank ones are passed
      over. */
  function Collect<D>(lines: seq<string>, codec: Codec<D>): Outcome<D> {
    if lines == [] then Outcome([], None)
    else
      var line := Trim(lines[0]);
      if line == [] then Collect(lines[1..], codec)
      else
        match codec.parse(line)
        case None => Outcome([], Some(line))
        case Some(draft) => Prepend([draft], Collect(lines[1..], codec))
  }

  function Prepend<D>(drafts: seq<D>, o: Outcome<D>): Outcome<D> { Outcome(drafts + o.drafts, o.malformed) }

  function ReadWhole<D>(text: string, codec: Codec<D>): Outcome<D> { Collect(Split(text, '\n'), codec) }

  function Concat(chunks: seq<string>): string {
    if chunks == [] then [] else chunks[0] + Concat(chunks[1..])
  }

  lemma ExtendedAfter(first: string, parts: seq<string>, c: char, sep: char)
    requires parts != []
    ensures Extended([first] + parts, c, sep) == [first] + Extended(parts, c, sep)
  {
    var all := [first] + parts;
    assert all[..|all| - 1] == [first] + parts[..|parts| - 1] && all[|all| - 1] == parts[|parts| - 1];
  }

  /** Cutting after the first separator. */
  lemma {:induction false} SplitAtFirst(line: string, rest: string, sep: char)
    requires sep !in line
    ensures Split(line + [sep] + rest, sep) == [line] + Split(rest, sep)
    decreases |rest|
  {
    if rest == [] {
      SplitOfLine(line, sep);
      SplitOneMore(line, sep, sep);
      assert line + [sep] + rest == line + [sep];
    } else {
      var shorter, last := rest[..|rest| - 1], rest[|rest| - 1];
      SplitAtFirst(line, shorter, sep);
      LastApart(rest);
      assert line + [sep] + rest == line + [sep] + shorter + [last];
      SplitOneMore(line + [sep] + shorter, last, sep);
      SplitOneMore(shorter, last, sep);
      ExtendedAfter(line, Split(shorter, sep), last, sep);
    }
  }

  lemma WholeAfterLine<D>(line: string, rest: string, codec: Codec<D>)
    requires '\n' !in line
    ensures ReadWhole(line + ['\n'] + rest, codec)
            == (var trimmed := Trim(line);
                if trimmed == [] then ReadWhole(rest, codec)
                else
                  match codec.parse(trimmed)
                  case None => Outcome([], Some(trimmed))
                  case Some(draft) => Prepend([draft], ReadWhole(rest, codec)))
  {
    SplitAtFirst(line, rest, '\n');
  }

  // ---------------------------------------------------------------- what the server writes

  /** Each draft as one line. */
  function Written<D>(drafts: seq<D>, codec: Codec<D>): string {
    if drafts == [] then [] else codec.encode(drafts[0]) + ['\n'] + Written(drafts[1..], codec)
  }

  /** A text that holds one draft on one line, as `JSON.stringify` of an object does. */
  predicate OneLine(s: string) { s != [] && '\n' !in s && !IsSpace(s[0]) && !IsSpace(s[|s| - 1]) }

  ghost predicate Faithful<D>(drafts: seq<D>, codec: Codec<D>) {
    forall i :: 0 <= i < |drafts| ==> OneLine(codec.encode(drafts[i])) && codec.parse(codec.encode(drafts[i])) == Some(drafts[i])
  }

  /** Every draft written in full is read, whatever follows: a connection that breaks off inside a
      line loses that line only. */
  lemma {:induction false} WrittenIsRead<D>(drafts: seq<D>, rest: string, codec: Codec<D>)
    requires Faithful(drafts, codec)
    ensures ReadWhole(Written(drafts, codec) + rest, codec) == Prepend(drafts, ReadWhole(rest, codec))
    decreases |drafts|
  {
    if drafts == [] {
      assert Written(drafts, codec) + rest == rest;
      PrependNothing(ReadWhole(rest, codec));
    } else {
      var later := Written(drafts[1..], codec);
      FirstLineRead(drafts, later + rest, codec);
      assert Written(drafts, codec) + rest == codec.encode(drafts[0]) + ['\n'] + (later + rest);
      WrittenIsRead(drafts[1..], rest, codec);
      PrependTwice(drafts, ReadWhole(rest, codec));
    }
  }

  lemma FirstLineRead<D>(drafts: seq<D>, later: string, codec: Codec<D>)
    requires Faithful(drafts, codec) && drafts != []
    ensures ReadWhole(codec.encode(drafts[0]) + ['\n'] + later, codec) == Prepend([drafts[0]], ReadWhole(later, codec))
  {
    var line := codec.encode(drafts[0]);
    TrimOfTrimmed(line);
    WholeAfterLine(line, later, codec);
  }

  lemma PrependNothing<D>(o: Outcome<D>)
    ensures Prepend([], o) == o
  {
    assert [] + o.drafts == o.drafts;
  }

  lemma PrependTwice<D>(drafts: seq<D>, o: Outcome<D>)
    requires drafts != []
    ensures Prepend([drafts[0]], Prepend(drafts[1..], o)) == Prepend(drafts, o)
  {
    assert [drafts[0]] + (drafts[1..] + o.drafts) == drafts + o.drafts;
  }

  /** What the server wrote line by line comes back unchanged, however the network cut it up. */
  lemma StreamIsLossless<D>(drafts: seq<D>, chunks: seq<string>, codec: Codec<D>)
    requires Faithful(drafts, codec) && Concat(chunks) == Written(drafts, codec)
    ensures ReadWhole(Concat(chunks), codec) == Outcome(drafts, None)
  {
    WrittenIsRead(drafts, [], codec);
    assert Written(drafts, codec) + [] == Written(drafts, codec);
    assert Collect([[]], codec) == Outcome([], None);
    assert drafts + [] == drafts;
  }

  /** A line that is only white space is passed over. */
  lemma BlankLinePassed<D>(drafts: seq<D>, blank: string, rest: string, codec: Codec<D>)
    requires Faithful(drafts, codec) && AllSpace(blank) && '\n' !in blank
    ensures ReadWhole(Written(drafts, codec) + (blank + ['\n'] + rest), codec) == Prepend(drafts, ReadWhole(rest, codec))
  {
    WrittenIsRead(drafts, blank + ['\n'] + rest, codec);
    TrimDropsPadding(blank, [], []);
    assert blank + [] + [] == blank;
    WholeAfterLine(blank, rest, codec);
  }

  /** A draft is read through white space around it, and at the end without its line break too. */
  lemma PaddedLineRead<D>(drafts: seq<D>, before: string, draft: D, after: string, rest: string, codec: Codec<D>)
    requires Faithful(drafts, codec) && Faithful([draft], codec)
    requires AllSpace(before) && AllSpace(after) && '\n' !in before && '\n' !in after
    ensures var line := before + codec.encode(draft) + after;
            && ReadWhole(Written(drafts, codec) + (line + ['\n'] + rest), codec) == Prepend(drafts + [draft], ReadWhole(rest, codec))
            && ReadWhole(Written(drafts, codec) + line, codec) == Outcome(drafts + [draft], None)
  {
    var line := before + codec.encode(draft) + after;
    assert OneLine(codec.encode([draft][0]));
    TrimDropsPadding(before, codec.encode(draft), after);
    WrittenIsRead(drafts, line + ['\n'] + rest, codec);
    WholeAfterLine(line, rest, codec);
    PrependMore(drafts, draft, ReadWhole(rest, codec));
    WrittenIsRead(drafts, line, codec);
    LoneLine(line, codec);
    assert [draft][0] == draft;
  }

  lemma LoneLine<D>(line: string, codec: Codec<D>)
    requires '\n' !in line && Trim(line) != []
    ensures ReadWhole(line, codec) == match codec.parse(Trim(line)) case None => Outcome([], Some(Trim(line))) case Some(d) => Outcome([d], None)
  {
    SplitOfLine(line, '\n');
    assert [line][1..] == [] && Collect([], codec) == Outcome([], None);
    if codec.parse(Trim(line)).Some? {
      assert [codec.parse(Trim(line)).value] + [] == [codec.parse(Trim(line)).value];
    }
  }

  /** Reading stops at the first line that does not parse: what came before it has been yielded, and
      nothing behind it is looked at. */
  lemma BadLineStops<D>(drafts: seq<D>, bad: string, rest: string, codec: Codec<D>)
    requires Faithful(drafts, codec) && '\n' !in bad && Trim(bad) != [] && codec.parse(Trim(bad)) == None
    ensures ReadWhole(Written(drafts, codec) + (bad + ['\n'] + rest), codec) == Outcome(drafts, Some(Trim(bad)))
    ensures ReadWhole(Written(drafts, codec) + bad, codec) == Outcome(drafts, Some(Trim(bad)))
  {
    WrittenIsRead(drafts, bad + ['\n'] + rest, codec);
    WholeAfterLine(bad, rest, codec);
    WrittenIsRead(drafts, bad, codec);
    LoneLine(bad, codec);
    assert drafts + [] == drafts;
  }

  // ---------------------------------------------------------------- the chunked reader

  /** `indexOf('\n')`. */
  function IndexOfBreak(s: string): (i: int)
    ensures -1 <= i < |s|
    ensures i == -1 ==> '\n' !in s
    ensures i >= 0 ==> s[i] == '\n' && '\n' !in s[..i]
  {
    if s == [] then -1
    else if s[0] == '\n' then 0
    else
      var i := IndexOfBreak(s[1..]);
      if i == -1 then -1
      else
        assert s[..i + 1] == [s[0]] + s[1..][..i];
        i + 1
  }

  /** What is yielded so far, the buffer and what has yet to arrive still make up the whole. */
  ghost predicate OnTrack<D>(text: string, drafts: seq<D>, buffer: string, rest: string, codec: Codec<D>) {
    ReadWhole(text, codec) == Prepend(drafts, ReadWhole(buffer + rest, codec))
  }

  lemma LineTaken<D>(text: string, drafts: seq<D>, buffer: string, boundary: nat, rest: string, codec: Codec<D>)
    requires OnTrack(text, drafts, buffer, rest, codec)
    requires boundary < |buffer| && buffer[boundary] == '\n' && '\n' !in buffer[..boundary]
    ensures var line := Trim(buffer[..boundary]);
            if line == [] then OnTrack(text, drafts, buffer[boundary + 1..], rest, codec)
            else
              match codec.parse(line)
              case None => ReadWhole(text, codec) == Outcome(drafts, Some(line))
              case Some(draft) => OnTrack(text, drafts + [draft], buffer[boundary + 1..], rest, codec)
  {
    var line, left := Trim(buffer[..boundary]), buffer[boundary + 1..] + rest;
    CutAt(buffer, boundary, rest);
    WholeAfterLine(buffer[..boundary], left, codec);
    assert drafts + [] == drafts;
    if line != [] && codec.parse(line).Some? {
      PrependMore(drafts, codec.parse(line).value, ReadWhole(left, codec));
    }
  }

  lemma CutAt(buffer: string, boundary: nat, rest: string)
    requires boundary < |buffer|
    ensures buffer + rest == buffer[..boundary] + [buffer[boundary]] + (buffer[boundary + 1..] + rest)
  {
  }

  lemma PrependMore<D>(drafts: seq<D>, draft: D, o: Outcome<D>)
    ensures Prepend(drafts, Prepend([draft], o)) == Prepend(drafts + [draft], o)
  {
    assert drafts + ([draft] + o.drafts) == drafts + [draft] + o.drafts;
  }

  lemma TailTaken<D>(text: string, drafts: seq<D>, tail: string, codec: Codec<D>)
    requires OnTrack(text, drafts, tail, [], codec) && '\n' !in tail
    ensures ReadWhole(text, codec)
            == (var trimmed := Trim(tail);
                if trimmed == [] then Outcome(drafts, None)
                else
                  match codec.parse(trimmed)
                  case None => Outcome(drafts, Some(trimmed))
                  case Some(draft) => Outcome(drafts + [draft], None))
  {
    assert tail + [] == tail;
    SplitOfLine(tail, '\n');
    assert [tail][1..] == [];
    assert Collect([], codec) == Outcome([], None);
    assert drafts + [] == drafts;
    if codec.parse(Trim(tail)).Some? {
      assert [codec.parse(Trim(tail)).value] + [] == [codec.parse(Trim(tail)).value];
    }
  }

  /** However the text was cut into chunks, the reader yields what the whole text holds. */
  method StreamDrafts<D>(chunks: seq<string>, codec: Codec<D>) returns (o: Outcome<D>)
    ensures o == ReadWhole(Concat(chunks), codec)
  {
    var drafts: seq<D> := [];
    var buffer: string := "";
    ghost var text := Concat(chunks);
    assert chunks[0..] == chunks && [] + text == text;
    for i := 0 to |chunks|
      invariant OnTrack(text, drafts, buffer, Concat(chunks[i..]), codec) && '\n' !in buffer
    {
      assert chunks[i..][1..] == chunks[i + 1..];
      assert buffer + Concat(chunks[i..]) == buffer + chunks[i] + Concat(chunks[i + 1..]);
      buffer := buffer + chunks[i];
      var boundary := IndexOfBreak(buffer);
      while boundary != -1
        invariant boundary == IndexOfBreak(buffer)
        invariant OnTrack(text, drafts, buffer, Concat(chunks[i + 1..]), codec)
        decreases |buffer|
      {
        LineTaken(text, drafts, buffer, boundary, Concat(chunks[i + 1..]), codec);
        var line := Trim(buffer[..boundary]);
        buffer := buffer[boundary + 1..];
        if line != [] {
          var draft := codec.parse(line);
          if draft == None {
            return Outcome(drafts, Some(line));
          }
          drafts := drafts + [draft.value];
        }
        boundary := IndexOfBreak(buffer);
      }
    }
    TailTaken(text, drafts, buffer, codec);
    var tail := Trim(buffer);
    if tail != [] {
      var draft := codec.parse(tail);
      if draft == None {
        return Outcome(drafts, Some(tail));
      }
      drafts := drafts + [draft.value];
    }
    return Outcome(drafts, None);
  }
}
