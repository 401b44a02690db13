/** Queries that the matcher of backend/src/routes/fuzzy.ts answers as far below the best as it ever
    can: each adjacency is given up for the sake of a single point. */
module FuzzyGap {
  import opened Collections
  import opened Text
  import opened FuzzyMatcher
  import opened FuzzyOptimality
  import opened FuzzyBoundaries

  const LONGEST := 11

  function Letter(q: nat): char
    requires q < LONGEST
  {
    ('a' as int + q) as char
  }

  function Letters(n: nat): (s: string)
    requires n <= LONGEST
    ensures |s| == n
  {
    seq(n, i requires 0 <= i < n => Letter(i))
  }

  /** The query itself and then, for each `m` below `n`, its last `m` letters behind a full stop. The
      letter `q` of the block `m` stands at `11 * m + q + 2`. */
  function SpreadAt(n: nat, t: nat): char
    requires 2 <= n <= LONGEST
  {
    if t < n then Letter(t)
    else
      var m, q := (t - 2) / LONGEST, (t - 2) % LONGEST;
      if m < 1 || m >= n then '!'
      else if q + m == n - 1 then '.'
      else if q + m >= n > q then Letter(q)
      else '!'
  }

  function Spread(n: nat): (s: string)
    requires 2 <= n <= LONGEST
    ensures |s| == 12 * n - 9
  {
    seq(12 * n - 9, t requires 0 <= t < 12 * n - 9 => SpreadAt(n, t))
  }

  ghost predicate IsSpread(n: nat, needle: string, hay: string, bonus: seq<nat>) {
    2 <= n <= LONGEST && needle == Letters(n) && hay == Spread(n) && Plain(hay, bonus)
  }

  lemma Occurs(n: nat, needle: string, hay: string, bonus: seq<nat>, q: nat, t: nat)
    requires IsSpread(n, needle, hay, bonus) && q < n && t < |hay| && hay[t] == needle[q]
    ensures t != q ==> var m := (t - 2) / LONGEST; n - q <= m < n && t == 11 * m + q + 2
  {
    assert hay[t] == SpreadAt(n, t) && needle[q] == Letter(q);
  }

  lemma InBlock(n: nat, needle: string, hay: string, bonus: seq<nat>, q: nat, m: nat)
    requires IsSpread(n, needle, hay, bonus) && q < n && n - q <= m < n
    ensures var t := 11 * m + q + 2; t < |hay| && hay[t] == needle[q] && bonus[t] == if m + q == n then SEPARATOR_BONUS else 0
  {
    var t := 11 * m + q + 2;
    assert (t - 2) / LONGEST == m && (t - 2) % LONGEST == q;
    assert q >= 1 && (t - 3) / LONGEST == m && (t - 3) % LONGEST == q - 1;
    assert hay[t] == SpreadAt(n, t) && hay[t - 1] == SpreadAt(n, t - 1);
    assert PlainAt(hay, bonus, t);
    LettersSeparateNothing();
  }

  lemma LettersSeparateNothing()
    ensures '.' in SEPARATORS && '!' !in SEPARATORS
    ensures forall q :: 0 <= q < LONGEST ==> Letter(q) !in SEPARATORS
  {
    assert SEPARATORS[4] == '.';
  }

  lemma NextIsPlain(n: nat, needle: string, hay: string, bonus: seq<nat>, q: nat, t: nat)
    requires IsSpread(n, needle, hay, bonus) && 1 <= q < n && 11 * (n - q) + q + 2 < t < |hay| && hay[t] == needle[q]
    ensures bonus[t] == 0
  {
    Occurs(n, needle, hay, bonus, q, t);
    InBlock(n, needle, hay, bonus, q, (t - 2) / LONGEST);
  }

  /** Past the block that begins with a letter, that letter and those after it are on no boundary. */
  lemma {:induction false} PlainBehind(n: nat, needle: string, hay: string, bonus: seq<nat>, q: nat, t: nat, at: seq<nat>)
    requires IsSpread(n, needle, hay, bonus) && 1 <= q <= n && t > 11 * (n - q) + q + 2 && Spells(needle, hay, q, t, at)
    ensures Within(at, |bonus|) && |at| == n - q && CharacterScores(bonus, at) == |at|
    decreases |at|
  {
    SpellsFits(needle, hay, q, t, at);
    if at != [] {
      NextIsPlain(n, needle, hay, bonus, q, at[0]);
      PlainBehind(n, needle, hay, bonus, q + 1, at[0] + 1, at[1..]);
    }
  }

  /** What is to be had there: one point for each letter and every adjacency. */
  lemma BehindAtMost(n: nat, needle: string, hay: string, bonus: seq<nat>, q: nat, t: nat)
    requires IsSpread(n, needle, hay, bonus) && 1 <= q < n && 11 * (n - q) + q + 2 < t <= |hay|
    ensures var r := Search(needle, hay, bonus, q, t); r.Some? ==> r.value.score <= 13 * (n - q) - 12
  {
    FoundIsAPlacement(needle, hay, bonus, q, t);
    if Search(needle, hay, bonus, q, t).Some? {
      var at := Search(needle, hay, bonus, q, t).value.indices;
      PlainBehind(n, needle, hay, bonus, q, t, at);
      SpellsMeans(needle, hay, q, t, at);
      GapsAreSkipped(at);
    }
  }

  lemma StaysInLine(needle: string, hay: string, bonus: seq<nat>, q: nat, t: nat, limit: int)
    requires |bonus| == |hay| && q < |needle| && t < |hay| && |needle| - q <= |hay| - t && hay[t] == needle[q]
    requires var rest := Search(needle, hay, bonus, q + 1, t + 1); rest.Some? && (rest.value.indices != [] ==> rest.value.indices[0] == t + 1)
    requires Search(needle, hay, bonus, q, t + 1).Some? ==> Search(needle, hay, bonus, q, t + 1).value.score <= limit
    requires Consumed(bonus[t], t, Search(needle, hay, bonus, q + 1, t + 1).value).score >= limit
    ensures Search(needle, hay, bonus, q, t) == Some(Consumed(bonus[t], t, Search(needle, hay, bonus, q + 1, t + 1).value))
  {
  }

  /** In a block the search stays in line. */
  lemma {:induction false} InLine(n: nat, needle: string, hay: string, bonus: seq<nat>, q: nat, m: nat)
    requires IsSpread(n, needle, hay, bonus) && q < n && n - q < m < n
    ensures var t, r := 11 * m + q + 2, Search(needle, hay, bonus, q, 11 * m + q + 2);
            t < |hay| && r.Some? && r.value.score == 13 * (n - q) - 12 && r.value.indices != [] && r.value.indices[0] == t
    decreases n - q
  {
    var t := 11 * m + q + 2;
    InBlock(n, needle, hay, bonus, q, m);
    if q + 1 < n {
      InLine(n, needle, hay, bonus, q + 1, m);
    }
    BehindAtMost(n, needle, hay, bonus, q, t + 1);
    StaysInLine(needle, hay, bonus, q, t, 13 * (n - q) - 12);
  }

  lemma RestOfBlock(n: nat, needle: string, hay: string, bonus: seq<nat>, q: nat, t: nat)
    requires IsSpread(n, needle, hay, bonus) && 1 <= q < n && t == 11 * (n - q) + q + 2 < |hay|
    ensures var r := Search(needle, hay, bonus, q + 1, t + 1);
            && r.Some? && (r.value.indices == [] <==> q == n - 1) && (r.value.indices != [] ==> r.value.indices[0] == t + 1)
            && r.value.score == if q == n - 1 then 0 else 13 * (n - q) - 25
  {
    if q + 1 < n {
      InLine(n, needle, hay, bonus, q + 1, n - q);
    }
  }

  lemma BlockBegins(n: nat, needle: string, hay: string, bonus: seq<nat>, q: nat)
    requires IsSpread(n, needle, hay, bonus) && 1 <= q < n
    ensures var t, r := 11 * (n - q) + q + 2, Search(needle, hay, bonus, q, 11 * (n - q) + q + 2);
            t < |hay| && r.Some? && r.value.score == 13 * (n - q) + 2 && r.value.indices != [] && r.value.indices[0] == t
  {
    var t := 11 * (n - q) + q + 2;
    InBlock(n, needle, hay, bonus, q, n - q);
    RestOfBlock(n, needle, hay, bonus, q, t);
    BehindAtMost(n, needle, hay, bonus, q, t + 1);
    StaysInLine(needle, hay, bonus, q, t, 13 * (n - q) - 12);
  }

  /** From the query's own place the block is worth the way, but for a point. */
  lemma OnTheWay(n: nat, needle: string, hay: string, bonus: seq<nat>, q: nat)
    requires IsSpread(n, needle, hay, bonus) && 1 <= q < n
    ensures var r := Search(needle, hay, bonus, q, q + 1);
            r.Some? && r.value.score == 2 * (n - q) + 1 && r.value.indices != [] && r.value.indices[0] > n
  {
    var next := 11 * (n - q) + q + 2;
    BlockBegins(n, needle, hay, bonus, q);
    forall i | q + 1 <= i < next ensures hay[i] != needle[q] {
      if hay[i] == needle[q] {
        Occurs(n, needle, hay, bonus, q, i);
      }
    }
    RunsUp(needle, hay, bonus, q, q + 1, next);
  }

  lemma OwnLetter(n: nat, needle: string, hay: string, bonus: seq<nat>, q: nat)
    requires IsSpread(n, needle, hay, bonus) && q < n
    ensures hay[q] == needle[q] && bonus[q] == if q == 0 then START_BONUS else 0
  {
    assert PlainAt(hay, bonus, q);
    assert hay[q] == SpreadAt(n, q);
    assert q > 0 ==> hay[q - 1] == SpreadAt(n, q - 1);
    LettersSeparateNothing();
  }

  lemma {:induction false} EachLeaves(n: nat, needle: string, hay: string, bonus: seq<nat>, q: nat)
    requires IsSpread(n, needle, hay, bonus) && 1 <= q < n
    ensures var r := Search(needle, hay, bonus, q, q);
            r.Some? && r.value.score == 2 * (n - q) && r.value.indices != [] && r.value.indices[0] > n
    decreases n - q
  {
    OwnLetter(n, needle, hay, bonus, q);
    OnTheWay(n, needle, hay, bonus, q);
    if q + 1 < n {
      EachLeaves(n, needle, hay, bonus, q + 1);
    }
    Candidate(needle, hay, bonus, q, q, Search(needle, hay, bonus, q + 1, q + 1).value, Search(needle, hay, bonus, q, q + 1));
  }

  lemma SpreadFound(n: nat, needle: string, hay: string, bonus: seq<nat>)
    requires IsSpread(n, needle, hay, bonus)
    ensures Search(needle, hay, bonus, 0, 0).Some? && Search(needle, hay, bonus, 0, 0).value.score == 2 * n + 17
  {
    OwnLetter(n, needle, hay, bonus, 0);
    EachLeaves(n, needle, hay, bonus, 1);
    forall i | 1 <= i < |hay| ensures hay[i] != needle[0] {
      if hay[i] == needle[0] {
        Occurs(n, needle, hay, bonus, 0, i);
      }
    }
    NoneWithout(needle, hay, bonus, 0, 1);
    Candidate(needle, hay, bonus, 0, 0, Search(needle, hay, bonus, 1, 1).value, None);
  }

  lemma {:induction false} LettersAdjacent(n: nat, q: nat)
    requires 1 <= q <= n <= LONGEST
    ensures OwnFrom(Letters(n), q) == 13 * (n - q)
    decreases n - q
  {
    if q < n {
      LettersSeparateNothing();
      LettersAdjacent(n, q + 1);
    }
  }

  lemma SpreadIsSearched(n: nat)
    requires 2 <= n <= LONGEST
    ensures var query, target := Letters(n), Spread(n);
            && |target| <= MAX_TARGET_LENGTH && Needle(query) == query && Lowered(target, Ascii()) == target
            && IsSpread(n, query, target, Bonuses(target, Ascii()))
            && FuzzyMatch(query, target, Ascii()) == Search(query, target, Bonuses(target, Ascii()), 0, 0)
  {
    assert !IsSpace(Letter(0)) && !IsSpace(Letter(n - 1));
    TrimOfTrimmed(Letters(n));
    LowerIsPlain(Letters(n));
    LowerIsPlain(Spread(n));
  }

  /** For each length up to eleven a query and a target on which the reported score is 11 for each
      character after the first below that of the query in its own place. */
  lemma GapIsAttainedByMatcher(n: nat)
    requires 2 <= n <= LONGEST
    ensures var query, target, own := Letters(n), Spread(n), Placed(0, n, n - 1);
            && |target| <= MAX_TARGET_LENGTH && |Needle(query)| == n
            && Matches(Needle(query), Lowered(target, Ascii()), own) && Within(own, |target|)
            && FuzzyMatch(query, target, Ascii()).Some?
            && Score(Bonuses(target, Ascii()), 0, own) == FuzzyMatch(query, target, Ascii()).value.score + GAP * (n - 1)
  {
    var query, target := Letters(n), Spread(n);
    SpreadIsSearched(n);
    SpreadFound(n, query, target, Bonuses(target, Ascii()));
    forall i | 0 <= i < n ensures SameAt(query, target, i) {
      OwnLetter(n, query, target, Bonuses(target, Ascii()), i);
    }
    OwnPlace(query, target, Bonuses(target, Ascii()));
    LettersAdjacent(n, 1);
  }
}
