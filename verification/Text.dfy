/** The string primitives of JavaScript that the modules share. */
module Text {
  /** White space and line terminators, as `trim` and `\s` know them. */
  predicate IsSpace(c: char) {
    || c in "\t\n\U{B}\U{C}\r \U{A0}\U{FEFF}\U{1680}\U{2028}\U{2029}\U{202F}\U{205F}\U{3000}"
    || '\U{2000}' <= c <= '\U{200A}'
  }

  /** The code points of WhiteSpace and LineTerminator in sections 12.2 and 12.3 of ECMA-262. */
  const WHITE_SPACE: set<int> := {9, 10, 11, 12, 13, 32, 160, 5760, 8192, 8193, 8194, 8195, 8196, 8197, 8198, 8199, 8200, 8201, 8202,
                                  8232, 8233, 8239, 8287, 12288, 65279}

  lemma SpacesAreTheStandards(c: char)
    ensures IsSpace(c) <==> c as int in WHITE_SPACE
  {
  }

  function TrimStart(s: string): string {
    if s != [] && IsSpace(s[0]) then TrimStart(s[1..]) else s
  }

  function TrimEnd(s: string): string {
    if s != [] && IsSpace(s[|s| - 1]) then TrimEnd(s[..|s| - 1]) else s
  }

  function Trim(s: string): string { TrimEnd(TrimStart(s)) }

  /** A string without white space at its ends is left alone. */
  predicate AllSpace(s: string) { forall i :: 0 <= i < |s| ==> IsSpace(s[i]) }

  lemma {:induction false} TrimStartDrops(space: string, s: string)
    requires AllSpace(space) && (s == [] || !IsSpace(s[0]))
    ensures TrimStart(space + s) == s
    decreases |space|
  {
    if space == [] {
      assert space + s == s;
    } else {
      assert (space + s)[1..] == space[1..] + s;
      TrimStartDrops(space[1..], s);
    }
  }

  lemma {:induction false} TrimEndDrops(s: string, space: string)
    requires AllSpace(space) && (s == [] || !IsSpace(s[|s| - 1]))
    ensures TrimEnd(s + space) == s
    decreases |space|
  {
    if space == [] {
      assert s + space == s;
    } else {
      assert (s + space)[..|s + space| - 1] == s + space[..|space| - 1];
      TrimEndDrops(s, space[..|space| - 1]);
    }
  }

  /** White space around a word, or alone, is dropped, and nothing else. */
  lemma TrimDropsPadding(before: string, s: string, after: string)
    requires AllSpace(before) && AllSpace(after) && (s != [] ==> !IsSpace(s[0]) && !IsSpace(s[|s| - 1]))
    ensures Trim(before + s + after) == s
  {
    assert before + s + after == before + (s + after);
    if s == [] {
      assert s + after == after;
      TrimStartDrops(before + after, []);
      assert before + after + [] == before + (s + after);
    } else {
      TrimStartDrops(before, s + after);
      TrimEndDrops(s, after);
    }
  }

  lemma TrimOfTrimmed(s: string)
    requires s != [] && !IsSpace(s[0]) && !IsSpace(s[|s| - 1])
    ensures Trim(s) == s
  {
  }

  /** The pieces after one more character. */
  function Extended(parts: seq<string>, c: char, sep: char): (r: seq<string>)
    requires parts != []
    ensures r != []
  {
    if c == sep then parts + [[]] else parts[..|parts| - 1] + [parts[|parts| - 1] + [c]]
  }

  /** Cutting at every separator; there is always at least one piece. */
  function Split(s: string, sep: char): (parts: seq<string>)
    ensures parts != []
  {
    if s == [] then [[]] else Extended(Split(s[..|s| - 1], sep), s[|s| - 1], sep)
  }

  lemma SplitOneMore(s: string, c: char, sep: char)
    ensures Split(s + [c], sep) == Extended(Split(s, sep), c, sep)
  {
    assert (s + [c])[..|s + [c]| - 1] == s;
  }

  function Join(parts: seq<string>, sep: char): string {
    if parts == [] then []
    else if |parts| == 1 then parts[0]
    else Join(parts[..|parts| - 1], sep) + [sep] + parts[|parts| - 1]
  }

  ghost predicate Free(parts: seq<string>, sep: char) { forall i :: 0 <= i < |parts| ==> sep !in parts[i] }

  lemma JoinOneMore(parts: seq<string>, part: string, sep: char)
    requires parts != []
    ensures Join(parts + [part], sep) == Join(parts, sep) + [sep] + part
  {
    assert (parts + [part])[..|parts|] == parts;
  }

  lemma JoinOfExtended(parts: seq<string>, c: char, sep: char)
    requires parts != []
    ensures Join(Extended(parts, c, sep), sep) == Join(parts, sep) + [c]
  {
    var front, last := parts[..|parts| - 1], parts[|parts| - 1];
    assert parts == front + [last];
    if c == sep {
      JoinOneMore(parts, [], sep);
    } else if front != [] {
      JoinOneMore(front, last, sep);
      JoinOneMore(front, last + [c], sep);
    }
  }

  lemma ExtendedIsFree(parts: seq<string>, c: char, sep: char)
    requires parts != [] && Free(parts, sep)
    ensures Free(Extended(parts, c, sep), sep)
  {
  }

  lemma LastApart(s: string)
    requires s != []
    ensures s == s[..|s| - 1] + [s[|s| - 1]]
  {
  }

  lemma {:induction false} JoinOfSplit(s: string, sep: char)
    ensures Join(Split(s, sep), sep) == s && Free(Split(s, sep), sep)
  {
    if s != [] {
      var front := Split(s[..|s| - 1], sep);
      JoinOfSplit(s[..|s| - 1], sep);
      JoinOfExtended(front, s[|s| - 1], sep);
      ExtendedIsFree(front, s[|s| - 1], sep);
      LastApart(s);
    }
  }

  /** The pieces after a whole word. */
  function Lengthened(parts: seq<string>, word: string): seq<string>
    requires parts != []
  {
    parts[..|parts| - 1] + [parts[|parts| - 1] + word]
  }

  lemma LengthenedExtended(parts: seq<string>, word: string, c: char, sep: char)
    requires parts != [] && c != sep
    ensures Extended(Lengthened(parts, word), c, sep) == Lengthened(parts, word + [c])
  {
    var longer := Lengthened(parts, word);
    assert longer[..|longer| - 1] == parts[..|parts| - 1];
    assert parts[|parts| - 1] + word + [c] == parts[|parts| - 1] + (word + [c]);
  }

  lemma LengthenedByNothing(parts: seq<string>)
    requires parts != []
    ensures Lengthened(parts, []) == parts
  {
    assert parts[|parts| - 1] + [] == parts[|parts| - 1];
  }

  lemma SplitOneFurther(s: string, word: string, c: char, sep: char)
    requires c != sep && Split(s + word, sep) == Lengthened(Split(s, sep), word)
    ensures Split(s + (word + [c]), sep) == Lengthened(Split(s, sep), word + [c])
  {
    SplitOneMore(s + word, c, sep);
    LengthenedExtended(Split(s, sep), word, c, sep);
    assert s + (word + [c]) == s + word + [c];
  }

  lemma {:induction false} SplitExtended(s: string, word: string, sep: char)
    requires sep !in word
    ensures Split(s + word, sep) == Lengthened(Split(s, sep), word)
    decreases |word|
  {
    if word == [] {
      assert s + word == s;
      LengthenedByNothing(Split(s, sep));
    } else {
      var shorter, last := word[..|word| - 1], word[|word| - 1];
      assert last in word;
      SplitExtended(s, shorter, sep);
      SplitOneFurther(s, shorter, last, sep);
      LastApart(word);
    }
  }

  lemma SplitOfLine(line: string, sep: char)
    requires sep !in line
    ensures Split(line, sep) == [line]
  {
    SplitExtended([], line, sep);
    assert [] + line == line;
  }

  lemma SplitOfOneMorePart(front: seq<string>, last: string, sep: char)
    requires front != [] && Split(Join(front, sep), sep) == front && sep !in last
    ensures Split(Join(front + [last], sep), sep) == front + [last]
  {
    JoinOneMore(front, last, sep);
    SplitOneMore(Join(front, sep), sep, sep);
    SplitExtended(Join(front, sep) + [sep], last, sep);
    OneMorePart(front, last);
  }

  lemma {:induction false} SplitOfJoin(parts: seq<string>, sep: char)
    requires parts != [] && Free(parts, sep)
    ensures Split(Join(parts, sep), sep) == parts
    decreases |parts|
  {
    if |parts| == 1 {
      SplitOfLine(parts[0], sep);
    } else {
      SplitOfJoin(parts[..|parts| - 1], sep);
      SplitOfOneMorePart(parts[..|parts| - 1], parts[|parts| - 1], sep);
      assert parts == parts[..|parts| - 1] + [parts[|parts| - 1]];
    }
  }

  lemma OneMorePart(front: seq<string>, last: string)
    ensures Lengthened(front + [[]], last) == front + [last]
  {
    assert [] + last == last;
    assert (front + [[]])[..|front|] == front;
  }

  /** What no piece and not the separator contains, the whole does not contain. */
  lemma {:induction false} JoinHolds(parts: seq<string>, sep: char, c: char)
    requires c in Join(parts, sep)
    ensures c == sep || exists i :: 0 <= i < |parts| && c in parts[i]
    decreases |parts|
  {
    if |parts| > 1 && c !in parts[|parts| - 1] && c != sep {
      JoinHolds(parts[..|parts| - 1], sep, c);
      var i :| 0 <= i < |parts| - 1 && c in parts[..|parts| - 1][i];
      assert c in parts[i];
    }
  }
}
