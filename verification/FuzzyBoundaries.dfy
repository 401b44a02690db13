/** The matcher of backend/src/routes/fuzzy.ts under the bonuses it gives: which queries it matches
    best in every target, and queries for which it falls as far behind as it ever can. */
module FuzzyBoundaries {
  import opened Collections
  import opened Text
  import opened FuzzyMatcher
  import opened FuzzyOptimality

  ghost predicate BestMatch(query: string, target: string, cases: CaseMap) {
    forall at :: Matches(Lowered(Trim(query), cases), Lowered(target, cases), at) && |target| <= MAX_TARGET_LENGTH ==>
      Within(at, |target|) && FuzzyMatch(query, target, cases).Some?
      && Score(Bonuses(target, cases), 0, at) <= FuzzyMatch(query, target, cases).value.score
  }

  function Needle(query: string): string { Lowered(Trim(query), Ascii()) }

  /** Nothing that folds to a separator but the separator itself. */
  lemma SeparatorsAreFixed(c: char)
    requires Ascii().lower(c) in SEPARATORS
    ensures c in SEPARATORS
  {
  }

  // ---------------------------------------------------------------- a separator and one more character

  predicate SeparatedPair(needle: string) { |needle| == 2 && needle[0] in SEPARATORS }

  /** No place earns more than the one behind the pair's separator, but for the very first. */
  predicate PeaksBehind(c: char, hay: string, bonus: seq<nat>) {
    && |bonus| == |hay|
    && (forall i :: 1 <= i < |hay| ==> bonus[i] <= SEPARATOR_BONUS)
    && (forall i :: 1 <= i < |hay| && hay[i - 1] == c ==> bonus[i] == SEPARATOR_BONUS)
  }

  lemma ScoreOfOne(bonus: seq<nat>, t: nat, i: nat)
    requires t <= i < |bonus|
    ensures Within([i], |bonus|) && Score(bonus, t, [i]) == CHARACTER_SCORE + bonus[i] - (i - t)
  {
    var at: seq<nat> := [i];
    assert at[1..] == [] && CharacterScores(bonus, at[1..]) == 0;
    assert CharacterScores(bonus, at) == CHARACTER_SCORE + bonus[i];
  }

  /** Right behind the separator the second character is never left for a later one. */
  lemma SecondStays(needle: string, hay: string, bonus: seq<nat>, t: nat)
    requires |needle| == 2 && PeaksBehind(needle[0], hay, bonus)
    requires t + 1 < |hay| && hay[t] == needle[0] && hay[t + 1] == needle[1]
    ensures var r := Search(needle, hay, bonus, 1, t + 1); r.Some? && r.value.indices != [] && r.value.indices[0] == t + 1
  {
    FirstIndexOfSearch(needle, hay, bonus, 1, t + 1);
    FoundIsAPlacement(needle, hay, bonus, 1, t + 1);
    var at := Search(needle, hay, bonus, 1, t + 1).value.indices;
    SpellsFits(needle, hay, 1, t + 1, at);
    assert at == [at[0]];
    ScoreOfOne(bonus, t + 1, at[0]);
  }

  lemma {:induction false} BestForPair(needle: string, hay: string, bonus: seq<nat>, q: nat, t: nat, at: seq<nat>)
    requires |needle| == 2 && PeaksBehind(needle[0], hay, bonus)
    requires q <= 2 && t <= |hay| && Spells(needle, hay, q, t, at)
    ensures Within(at, |bonus|) && Search(needle, hay, bonus, q, t).Some?
    ensures Search(needle, hay, bonus, q, t).value.score >= Score(bonus, t, at)
    decreases |hay| - t
  {
    SpellsFits(needle, hay, q, t, at);
    if at != [] {
      if at[0] > t {
        BestForPair(needle, hay, bonus, q, t + 1, at);
        ScoreSkip(bonus, t, at);
      } else {
        BestForPair(needle, hay, bonus, q + 1, t + 1, at[1..]);
        if |at| > 1 && at[1] == t + 1 {
          SecondStays(needle, hay, bonus, t);
        }
        TakenKeepsUp(needle, hay, bonus, q, t, at);
      }
    }
  }

  lemma TargetPeaks(target: string, c: char)
    requires c in SEPARATORS
    ensures PeaksBehind(c, Lowered(target, Ascii()), Bonuses(target, Ascii()))
  {
    var hay := Lowered(target, Ascii());
    forall i | 1 <= i < |hay| && hay[i - 1] == c ensures Bonuses(target, Ascii())[i] == SEPARATOR_BONUS {
      SeparatorsAreFixed(target[i - 1]);
    }
  }

  lemma ShortIsMatchedBest(query: string, target: string)
    requires |Needle(query)| <= 1 || SeparatedPair(Needle(query))
    ensures BestMatch(query, target, Ascii())
  {
    var needle, hay, bonus := Needle(query), Lowered(target, Ascii()), Bonuses(target, Ascii());
    forall at | Matches(needle, hay, at) && |target| <= MAX_TARGET_LENGTH
      ensures Within(at, |target|) && FuzzyMatch(query, target, Ascii()).Some?
              && Score(bonus, 0, at) <= FuzzyMatch(query, target, Ascii()).value.score
    {
      MatchesIsSpells(needle, hay, at);
      if needle == [] {
        assert at == [];
      } else if |needle| == 1 {
        ShortIsBest(needle, hay, bonus);
      } else {
        TargetPeaks(target, needle[0]);
        BestForPair(needle, hay, bonus, 0, 0, at);
      }
    }
  }

  // ---------------------------------------------------------------- what a placement can gain

  predicate PlainAt(hay: string, bonus: seq<nat>, i: nat)
    requires i < |hay| == |bonus|
  {
    bonus[i] == if i == 0 then START_BONUS else if hay[i - 1] in SEPARATORS then SEPARATOR_BONUS else 0
  }

  /** The bonuses of a target without capitals. */
  predicate Plain(hay: string, bonus: seq<nat>) {
    |bonus| == |hay| && forall i :: 0 <= i < |hay| ==> PlainAt(hay, bonus, i)
  }

  /** The boundary bonus of a character that directly follows the one before it in the query. */
  function OwnBonus(needle: string, q: nat): nat
    requires 1 <= q < |needle|
  {
    if needle[q - 1] in SEPARATORS then SEPARATOR_BONUS else 0
  }

  /** What the characters from `q` on are worth when each directly follows the one before. */
  function OwnFrom(needle: string, q: nat): int
    requires 1 <= q
    decreases |needle| - q
  {
    if q >= |needle| then 0
    else CHARACTER_SCORE + CONSECUTIVE_BONUS + OwnBonus(needle, q) + OwnFrom(needle, q + 1)
  }

  /** A character that is put elsewhere trades the adjacency for a separator at best, and a separator
      that precedes it in the query it has anyway. */
  function Gain(needle: string, q: nat, prev: nat, at: seq<nat>): int
    requires 1 <= q && q + |at| <= |needle|
    decreases |at|
  {
    if at == [] then 0
    else (if at[0] == prev + 1 then 0 else SEPARATOR_BONUS - CONSECUTIVE_BONUS - OwnBonus(needle, q))
         + Gain(needle, q + 1, at[0], at[1..])
  }

  lemma {:induction false} ScoreByGains(needle: string, hay: string, bonus: seq<nat>, q: nat, prev: nat, at: seq<nat>)
    requires Plain(hay, bonus) && 1 <= q <= |needle| && prev < |hay| && hay[prev] == needle[q - 1]
    requires Spells(needle, hay, q, prev + 1, at)
    ensures Within(at, |bonus|) && q + |at| == |needle|
    ensures CharacterScores(bonus, at) + CONSECUTIVE_BONUS * Adjacencies([prev] + at) <= OwnFrom(needle, q) + Gain(needle, q, prev, at)
    decreases |at|
  {
    SpellsFits(needle, hay, q, prev + 1, at);
    assert ([prev] + at)[1..] == at;
    if at != [] {
      assert PlainAt(hay, bonus, at[0]);
      ScoreByGains(needle, hay, bonus, q + 1, at[0], at[1..]);
      assert [at[0]] + at[1..] == at;
    }
  }

  lemma {:induction false} GainSplit(needle: string, q: nat, prev: nat, at: seq<nat>, j: nat)
    requires 1 <= q && q + |at| <= |needle| && j <= |at|
    ensures Gain(needle, q, prev, at)
            == Gain(needle, q, prev, at[..j]) + Gain(needle, q + j, if j == 0 then prev else at[j - 1], at[j..])
    decreases j
  {
    if j == 0 {
      assert at[0..] == at;
    } else {
      GainSplit(needle, q + 1, at[0], at[1..], j - 1);
      assert at[1..][..j - 1] == at[..j][1..] && at[1..][j - 1..] == at[j..];
      assert j > 1 ==> at[1..][j - 2] == at[j - 1];
    }
  }

  /** Two at most for each character passed over. */
  lemma {:induction false} GainAtMost(needle: string, q: nat, prev: nat, at: seq<nat>)
    requires 1 <= q && q + |at| <= |needle| && Ascending(at) && at != [] && prev < at[0]
    ensures Gain(needle, q, prev, at) <= 2 * (at[|at| - 1] - prev - |at|)
    decreases |at|
  {
    if |at| > 1 {
      TailAscends(at);
      GainAtMost(needle, q + 1, at[0], at[1..]);
    }
  }

  /** What a placement is worth beside the query in one piece at the start of the target. */
  lemma ScoreAtMost(needle: string, hay: string, bonus: seq<nat>, at: seq<nat>)
    requires Plain(hay, bonus) && Matches(needle, hay, at) && needle != []
    ensures Within(at, |bonus|)
    ensures Score(bonus, 0, at)
            <= CHARACTER_SCORE + START_BONUS + OwnFrom(needle, 1) + Gain(needle, 1, at[0], at[1..]) - (at[|at| - 1] + 1 - |at|)
  {
    MatchesIsSpells(needle, hay, at);
    assert PlainAt(hay, bonus, at[0]);
    ScoreByGains(needle, hay, bonus, 1, at[0], at[1..]);
    assert [at[0]] + at[1..] == at;
  }

  lemma GainBound(needle: string, at: seq<nat>, j: nat)
    requires 1 <= j <= |at| == |needle| && Ascending(at)
    ensures Gain(needle, 1, at[0], at[1..]) <= 2 * (at[j - 1] - (j - 1)) + Gain(needle, j, at[j - 1], at[j..])
  {
    var rest := at[1..];
    GainSplit(needle, 1, at[0], rest, j - 1);
    assert rest[j - 1..] == at[j..];
    if j > 1 {
      assert rest[..j - 1][j - 2] == at[j - 1];
      GainAtMost(needle, 1, at[0], rest[..j - 1]);
    }
  }

  lemma GainOfOne(needle: string, at: seq<nat>)
    requires |at| == |needle| >= 2 && at[|at| - 1] != at[|at| - 2] + 1
    ensures var n := |at|; Gain(needle, n - 1, at[n - 2], at[n - 1..]) == SEPARATOR_BONUS - CONSECUTIVE_BONUS - OwnBonus(needle, n - 1)
  {
    var n := |at|;
    assert at[n - 1..][1..] == [] && Gain(needle, n, at[n - 1], at[n - 1..][1..]) == 0;
  }

  lemma GainOfTwo(needle: string, at: seq<nat>)
    requires |at| == |needle| >= 3 && at[|at| - 1] == at[|at| - 2] + 1 && at[|at| - 2] != at[|at| - 3] + 1
    ensures var n := |at|; Gain(needle, n - 2, at[n - 3], at[n - 2..]) == SEPARATOR_BONUS - CONSECUTIVE_BONUS - OwnBonus(needle, n - 2)
  {
    var n := |at|;
    assert at[n - 2..][1..] == at[n - 1..];
    assert at[n - 1..][1..] == [] && Gain(needle, n, at[n - 1], at[n - 1..][1..]) == 0;
    assert Gain(needle, n - 1, at[n - 2], at[n - 1..]) == 0;
  }

  /** A placement that leaves for the end of the target with its last character only, or its last two. */
  lemma LeavesWithOne(needle: string, at: seq<nat>)
    requires |at| == |needle| >= 2 && Ascending(at) && at[|at| - 1] != at[|at| - 2] + 1
    ensures var n := |at|;
            Gain(needle, 1, at[0], at[1..]) <= 2 * (at[n - 2] - (n - 2)) + SEPARATOR_BONUS - CONSECUTIVE_BONUS - OwnBonus(needle, n - 1)
  {
    GainBound(needle, at, |at| - 1);
    GainOfOne(needle, at);
  }

  lemma LeavesWithTwo(needle: string, at: seq<nat>)
    requires |at| == |needle| >= 3 && Ascending(at)
    requires at[|at| - 1] == at[|at| - 2] + 1 && at[|at| - 2] != at[|at| - 3] + 1
    ensures var n := |at|;
            Gain(needle, 1, at[0], at[1..]) <= 2 * (at[n - 3] - (n - 3)) + SEPARATOR_BONUS - CONSECUTIVE_BONUS - OwnBonus(needle, n - 2)
  {
    GainBound(needle, at, |at| - 2);
    GainOfTwo(needle, at);
  }

  // ---------------------------------------------------------------- the query in its own place, and its last character anywhere

  predicate SameAt(needle: string, hay: string, i: nat) { i < |needle| && i < |hay| && hay[i] == needle[i] }

  /** The target begins as the query does. */
  predicate Shares(needle: string, hay: string, k: nat) { forall i :: 0 <= i < k ==> SameAt(needle, hay, i) }

  /** From `q` on: the `n` characters of the query in its own place, but for the last one at `e`. */
  function Placed(q: nat, n: nat, e: nat): (at: seq<nat>)
    requires q < n
    ensures |at| == n - q
    decreases n - q
  {
    if q == n - 1 then [e] else [q] + Placed(q + 1, n, e)
  }

  lemma {:induction false} PlacedAt(q: nat, n: nat, e: nat, i: nat)
    requires q < n && i < n - q
    ensures Placed(q, n, e)[i] == if q + i < n - 1 then q + i else e
    decreases n - q
  {
    if q < n - 1 && i > 0 {
      PlacedAt(q + 1, n, e, i - 1);
    }
  }

  lemma CharactersCons(bonus: seq<nat>, t: nat, rest: seq<nat>)
    requires t < |bonus| && Within(rest, |bonus|)
    ensures Within([t] + rest, |bonus|)
    ensures CharacterScores(bonus, [t] + rest) == CHARACTER_SCORE + bonus[t] + CharacterScores(bonus, rest)
  {
    assert ([t] + rest)[1..] == rest;
  }

  lemma {:induction false} PlacedCharacters(needle: string, hay: string, bonus: seq<nat>, q: nat, e: nat)
    requires Plain(hay, bonus) && 1 <= q < |needle| && |needle| - 1 <= e < |hay| && Shares(needle, hay, |needle| - 1)
    ensures var n := |needle|;
            && Within(Placed(q, n, e), |bonus|)
            && CharacterScores(bonus, Placed(q, n, e)) + CONSECUTIVE_BONUS * (n - 1 - q)
               == OwnFrom(needle, q) - CONSECUTIVE_BONUS - OwnBonus(needle, n - 1) + bonus[e]
    decreases |needle| - q
  {
    if q == |needle| - 1 {
      assert [e] + [] == [e];
      CharactersCons(bonus, e, []);
    } else {
      assert PlainAt(hay, bonus, q) && SameAt(needle, hay, q - 1);
      PlacedCharacters(needle, hay, bonus, q + 1, e);
      CharactersCons(bonus, q, Placed(q + 1, |needle|, e));
    }
  }

  lemma {:induction false} PlacedAdjacencies(q: nat, n: nat, e: nat)
    requires q < n - 1
    ensures Adjacencies(Placed(q, n, e)) == n - 2 - q + if e == n - 1 then 1 else 0
    decreases n - q
  {
    var rest := Placed(q + 1, n, e);
    PlacedAt(q + 1, n, e, 0);
    assert ([q] + rest)[1..] == rest;
    if q < n - 2 {
      PlacedAdjacencies(q + 1, n, e);
    }
  }

  lemma PlacedMatches(needle: string, hay: string, e: nat)
    requires |needle| >= 1 && |needle| - 1 <= e < |hay| && Shares(needle, hay, |needle| - 1) && hay[e] == needle[|needle| - 1]
    ensures Matches(needle, hay, Placed(0, |needle|, e)) && Within(Placed(0, |needle|, e), |hay|)
  {
    var n, at := |needle|, Placed(0, |needle|, e);
    forall i | 0 <= i < n ensures at[i] < |hay| && hay[at[i]] == needle[i] {
      PlacedAt(0, n, e, i);
      assert i < n - 1 ==> SameAt(needle, hay, i);
    }
    forall i, j | 0 <= i < j < n ensures at[i] < at[j] {
      PlacedAt(0, n, e, i);
      PlacedAt(0, n, e, j);
    }
  }

  lemma PlacedScore(needle: string, hay: string, bonus: seq<nat>, e: nat)
    requires Plain(hay, bonus) && |needle| >= 2 && |needle| - 1 <= e < |hay| && Shares(needle, hay, |needle| - 1)
    ensures var n, at := |needle|, Placed(0, |needle|, e);
            && Within(at, |bonus|)
            && Score(bonus, 0, at)
               == CHARACTER_SCORE + START_BONUS + OwnFrom(needle, 1) - CONSECUTIVE_BONUS - OwnBonus(needle, n - 1) + bonus[e]
                  + (if e == n - 1 then CONSECUTIVE_BONUS else 0) - (e + 1 - n)
  {
    var n := |needle|;
    assert PlainAt(hay, bonus, 0);
    PlacedCharacters(needle, hay, bonus, 1, e);
    CharactersCons(bonus, 0, Placed(1, n, e));
    PlacedAdjacencies(0, n, e);
    PlacedAt(0, n, e, n - 1);
  }

  /** An answer that begins in the query's own place goes on with the answer from there. */
  lemma {:induction false} Descends(needle: string, hay: string, bonus: seq<nat>, k: nat)
    requires |bonus| == |hay| && k <= |needle| <= |hay| && Search(needle, hay, bonus, 0, 0).Some?
    requires var at := Search(needle, hay, bonus, 0, 0).value.indices; |at| == |needle| && forall i :: 0 <= i < k ==> at[i] == i
    ensures Search(needle, hay, bonus, k, k).Some?
    ensures Search(needle, hay, bonus, k, k).value.indices == Search(needle, hay, bonus, 0, 0).value.indices[k..]
  {
    var at := Search(needle, hay, bonus, 0, 0).value.indices;
    if k > 0 {
      Descends(needle, hay, bonus, k - 1);
      StartsHere(needle, hay, bonus, k - 1, k - 1);
      assert at[k - 1..][1..] == at[k..];
    }
  }

  /** Going further on costs one a character. */
  lemma {:induction false} NoWorseThanLater(needle: string, hay: string, bonus: seq<nat>, q: nat, t: nat, later: nat)
    requires |bonus| == |hay| && q < |needle| && t <= later <= |hay| && Search(needle, hay, bonus, q, later).Some?
    ensures Search(needle, hay, bonus, q, t).Some?
    ensures Search(needle, hay, bonus, q, t).value.score >= Search(needle, hay, bonus, q, later).value.score - (later - t)
    decreases later - t
  {
    if t < later {
      NoWorseThanLater(needle, hay, bonus, q, t + 1, later);
      FoundIsAPlacement(needle, hay, bonus, q, t + 1);
      SpellsFits(needle, hay, q, t + 1, Search(needle, hay, bonus, q, t + 1).value.indices);
    }
  }

  // ---------------------------------------------------------------- three ways to lure a query from its place

  /** Ascending positions are at least as large as their number; if the last is no larger, none is. */
  lemma {:induction false} AtLeast(at: seq<nat>, i: nat)
    requires Ascending(at) && i < |at|
    ensures at[i] >= i
    ensures at[|at| - 1] == |at| - 1 ==> at[i] == i
    decreases i
  {
    if i > 0 {
      AtLeast(at, i - 1);
    }
    AtMost(at, i);
  }

  lemma {:induction false} AtMost(at: seq<nat>, i: nat)
    requires Ascending(at) && i < |at|
    ensures at[i] <= at[|at| - 1] - (|at| - 1 - i)
    decreases |at| - i
  {
    if i < |at| - 1 {
      AtMost(at, i + 1);
    }
  }

  /** None of the last three characters of the query. */
  predicate Stranger(needle: string, c: char) {
    forall i :: 0 <= i < |needle| && |needle| - 3 <= i ==> needle[i] != c
  }

  predicate StrangerAt(needle: string, hay: string, i: nat) { i < |hay| && Stranger(needle, hay[i]) }

  predicate Strangers(needle: string, hay: string, from: nat, to: nat) { forall i :: from <= i < to ==> StrangerAt(needle, hay, i) }

  lemma PlacedOutside(needle: string, hay: string, at: seq<nat>, i: nat, from: nat, to: nat)
    requires Matches(needle, hay, at) && i < |needle| <= i + 3 && Strangers(needle, hay, from, to)
    ensures !(from <= at[i] < to)
  {
    assert from <= at[i] < to ==> StrangerAt(needle, hay, at[i]);
  }

  /** After no separator: behind the query its last character once more, on a boundary. */
  predicate LateLast(needle: string, hay: string) {
    var n := |needle|;
    && n >= 2 && needle[n - 2] !in SEPARATORS
    && |hay| == n + 6 && Shares(needle, hay, n)
    && Strangers(needle, hay, n, n + 5) && hay[n + 4] in SEPARATORS && hay[n + 5] == needle[n - 1]
  }

  /** A placement that scores more than the answer. */
  predicate Outscored(needle: string, hay: string, bonus: seq<nat>, best: seq<nat>) {
    && |bonus| == |hay| && Matches(needle, hay, best) && Within(best, |bonus|)
    && var r := Search(needle, hay, bonus, 0, 0); r.Some? && r.value.score < Score(bonus, 0, best)
  }

  lemma FoundSomewhere(needle: string, hay: string, bonus: seq<nat>, at: seq<nat>)
    requires |bonus| == |hay| && needle != [] && Matches(needle, hay, at)
    ensures var r := Search(needle, hay, bonus, 0, 0);
            r.Some? && Matches(needle, hay, r.value.indices) && Within(r.value.indices, |bonus|)
            && r.value.score == Score(bonus, 0, r.value.indices)
  {
    MatchesIsSpells(needle, hay, at);
    NearBest(needle, hay, bonus, 0, 0, at);
    FoundIsAPlacement(needle, hay, bonus, 0, 0);
    MatchesIsSpells(needle, hay, Search(needle, hay, bonus, 0, 0).value.indices);
  }

  lemma OwnPlaces(at: seq<nat>)
    requires Ascending(at) && at != [] && at[|at| - 1] < |at|
    ensures forall i :: 0 <= i < |at| ==> at[i] == i
  {
    AtLeast(at, |at| - 1);
    forall i | 0 <= i < |at| ensures at[i] == i {
      AtLeast(at, i);
    }
  }

  /** The last character alone goes to a place of its own, and none is better. */
  lemma LastAlone(needle: string, hay: string, bonus: seq<nat>, t: nat, p: nat)
    requires |bonus| == |hay| && needle != [] && t <= p < |hay| && hay[p] == needle[|needle| - 1]
    ensures var r := Search(needle, hay, bonus, |needle| - 1, t);
            && r.Some? && |r.value.indices| == 1 && t <= r.value.indices[0] < |hay|
            && hay[r.value.indices[0]] == needle[|needle| - 1]
            && r.value.score == CHARACTER_SCORE + bonus[r.value.indices[0]] - (r.value.indices[0] - t)
            && r.value.score >= CHARACTER_SCORE + bonus[p] - (p - t)
  {
    var q, late: seq<nat> := |needle| - 1, [p];
    assert late[1..] == [];
    NearBest(needle, hay, bonus, q, t, late);
    ScoreOfOne(bonus, t, p);
    FoundIsAPlacement(needle, hay, bonus, q, t);
    var at := Search(needle, hay, bonus, q, t).value.indices;
    SpellsFits(needle, hay, q, t, at);
    assert at == [at[0]];
    ScoreOfOne(bonus, t, at[0]);
  }

  lemma OwnPlace(needle: string, hay: string, bonus: seq<nat>)
    requires Plain(hay, bonus) && 2 <= |needle| <= |hay| && Shares(needle, hay, |needle|)
    ensures var n := |needle|;
            && Matches(needle, hay, Placed(0, n, n - 1)) && Within(Placed(0, n, n - 1), |bonus|)
            && Score(bonus, 0, Placed(0, n, n - 1)) == CHARACTER_SCORE + START_BONUS + OwnFrom(needle, 1)
  {
    var n := |needle|;
    assert SameAt(needle, hay, n - 1) && SameAt(needle, hay, n - 2) && PlainAt(hay, bonus, n - 1);
    PlacedMatches(needle, hay, n - 1);
    PlacedScore(needle, hay, bonus, n - 1);
  }

  lemma LastLeaves(needle: string, hay: string, bonus: seq<nat>)
    requires LateLast(needle, hay) && Plain(hay, bonus) && Search(needle, hay, bonus, 0, 0).Some?
    requires Matches(needle, hay, Search(needle, hay, bonus, 0, 0).value.indices)
    ensures Search(needle, hay, bonus, 0, 0).value.indices[|needle| - 1] >= |needle|
  {
    var n, at := |needle|, Search(needle, hay, bonus, 0, 0).value.indices;
    assert SameAt(needle, hay, n - 2) && PlainAt(hay, bonus, n - 1) && PlainAt(hay, bonus, n + 5);
    if at[n - 1] < n {
      OwnPlaces(at);
      Descends(needle, hay, bonus, n - 1);
      assert at[n - 1..][0] == n - 1;
      LastAlone(needle, hay, bonus, n - 1, n + 5);
    }
  }

  lemma LateLastIsNotBest(needle: string, hay: string, bonus: seq<nat>, best: seq<nat>)
    requires LateLast(needle, hay) && Plain(hay, bonus)
    requires Matches(needle, hay, best) && Within(best, |bonus|) && Score(bonus, 0, best) == CHARACTER_SCORE + START_BONUS + OwnFrom(needle, 1)
    ensures Outscored(needle, hay, bonus, best)
  {
    var n := |needle|;
    FoundSomewhere(needle, hay, bonus, best);
    LastLeaves(needle, hay, bonus);
    var at := Search(needle, hay, bonus, 0, 0).value.indices;
    PlacedOutside(needle, hay, at, n - 1, n, n + 5);
    PlacedOutside(needle, hay, at, n - 2, n, n + 5);
    assert at[n - 2] < at[n - 1] == n + 5;
    ScoreAtMost(needle, hay, bonus, at);
    LeavesWithOne(needle, at);
  }

  /** The target ends in the last two characters of the query, both on a boundary. */
  predicate EndsInPair(needle: string, hay: string) {
    var n, p := |needle|, |hay| - 2;
    && 2 <= n < p && needle[n - 2] in SEPARATORS
    && hay[p - 1] in SEPARATORS && hay[p] == needle[n - 2] && hay[p + 1] == needle[n - 1]
  }

  lemma PairAtEnd(needle: string, hay: string, bonus: seq<nat>, t: nat)
    requires EndsInPair(needle, hay) && Plain(hay, bonus) && t <= |hay| - 2
    ensures var r := Search(needle, hay, bonus, |needle| - 2, t); r.Some? && r.value.score >= 42 - (|hay| - 2 - t)
  {
    var q, p := |needle| - 2, |hay| - 2;
    LastAlone(needle, hay, bonus, p + 1, p + 1);
    assert PlainAt(hay, bonus, p) && PlainAt(hay, bonus, p + 1);
    assert Taken(needle, hay, bonus, q, p).value.score == 42;
    assert Search(needle, hay, bonus, q, p).value.score >= 42;
    NoWorseThanLater(needle, hay, bonus, q, t, p);
  }

  /** What the last two characters earn when the first of them stays. */
  lemma PairTaken(needle: string, hay: string, bonus: seq<nat>)
    requires EndsInPair(needle, hay) && Plain(hay, bonus) && Taken(needle, hay, bonus, |needle| - 2, |needle| - 2).Some?
    ensures var n, taken := |needle|, Taken(needle, hay, bonus, |needle| - 2, |needle| - 2).value;
            && taken.score <= 28 + bonus[n - 2]
            && (hay[n - 1] != needle[n - 1] ==> taken.score <= 15 + bonus[n - 2])
  {
    LastAlone(needle, hay, bonus, |needle| - 1, |hay| - 1);
    assert PlainAt(hay, bonus, Search(needle, hay, bonus, |needle| - 1, |needle| - 1).value.indices[0]);
  }

  predicate Tempting(needle: string, hay: string, bonus: seq<nat>)
    requires 2 <= |needle| < |hay| == |bonus|
  {
    var n := |needle|;
    (bonus[n - 2] == 0 && |hay| <= n + 7) || (n > 2 && hay[n - 1] != needle[n - 1] && |hay| <= n + 8)
  }

  /** Not even the adjacency keeps the second to last character where it is, if it is on no boundary
      or the last one is not right behind it. */
  lemma PairLeaves(needle: string, hay: string, bonus: seq<nat>)
    requires EndsInPair(needle, hay) && Plain(hay, bonus) && Tempting(needle, hay, bonus)
    ensures var r := Search(needle, hay, bonus, |needle| - 2, |needle| - 2);
            r.Some? && (r.value.indices != [] ==> r.value.indices[0] != |needle| - 2)
  {
    var n := |needle|;
    PairAtEnd(needle, hay, bonus, n - 2);
    assert PlainAt(hay, bonus, n - 2);
    var r := Search(needle, hay, bonus, n - 2, n - 2).value;
    if r.indices != [] && r.indices[0] == n - 2 {
      FirstIsTaken(needle, hay, bonus, n - 2, n - 2);
      PairTaken(needle, hay, bonus);
    }
  }

  lemma FirstIsTaken(needle: string, hay: string, bonus: seq<nat>, q: nat, t: nat)
    requires |bonus| == |hay| && q < |needle| && t < |hay| && Search(needle, hay, bonus, q, t).Some?
    requires Search(needle, hay, bonus, q, t).value.indices != [] && Search(needle, hay, bonus, q, t).value.indices[0] == t
    ensures Search(needle, hay, bonus, q, t) == Taken(needle, hay, bonus, q, t)
  {
    FoundIsAPlacement(needle, hay, bonus, q, t + 1);
  }

  /** After a separator that follows none: behind the query its last two characters once more. */
  predicate LatePair(needle: string, hay: string) {
    var n := |needle|;
    && n >= 3 && needle[n - 3] !in SEPARATORS && needle[n - 2] in SEPARATORS
    && |hay| == n + 7 && Shares(needle, hay, n)
    && Strangers(needle, hay, n, n + 5) && EndsInPair(needle, hay)
  }

  /** After two separators: the last character apart from the others, and then the pair once more. */
  predicate SplitPair(needle: string, hay: string) {
    var n := |needle|;
    && n >= 3 && needle[n - 3] in SEPARATORS && needle[n - 2] in SEPARATORS
    && |hay| == n + 8 && Shares(needle, hay, n - 1) && hay[n - 1] in SEPARATORS && hay[n] == needle[n - 1]
    && Strangers(needle, hay, n - 1, n) && Strangers(needle, hay, n + 1, n + 6) && EndsInPair(needle, hay)
  }

  lemma PairGoes(needle: string, hay: string, bonus: seq<nat>, at: seq<nat>)
    requires EndsInPair(needle, hay) && Plain(hay, bonus) && Tempting(needle, hay, bonus) && Search(needle, hay, bonus, 0, 0).Some?
    requires at == Search(needle, hay, bonus, 0, 0).value.indices && Matches(needle, hay, at)
    ensures at[|needle| - 2] > |needle| - 2
  {
    var n := |needle|;
    if at[n - 2] <= n - 2 {
      OwnPlaces(at[..n - 1]);
      forall i | 0 <= i < n - 1 ensures at[i] == i {
        assert at[..n - 1][i] == i;
      }
      Descends(needle, hay, bonus, n - 2);
      assert at[n - 2..][0] == n - 2;
      PairLeaves(needle, hay, bonus);
    }
  }

  lemma LastThree(needle: string, hay: string, at: seq<nat>, from: nat, to: nat)
    requires Matches(needle, hay, at) && |needle| >= 3 && Strangers(needle, hay, from, to)
    ensures var n := |needle|;
            && at[n - 3] < at[n - 2] < at[n - 1] < |hay| && n - 2 <= at[n - 2] && hay[at[n - 3]] == needle[n - 3]
            && !(from <= at[n - 3] < to) && !(from <= at[n - 2] < to) && !(from <= at[n - 1] < to)
  {
    var n := |needle|;
    AtLeast(at, n - 2);
    PlacedOutside(needle, hay, at, n - 3, from, to);
    PlacedOutside(needle, hay, at, n - 2, from, to);
    PlacedOutside(needle, hay, at, n - 1, from, to);
  }

  lemma LatePairFalls(needle: string, hay: string, bonus: seq<nat>, at: seq<nat>)
    requires LatePair(needle, hay) && Plain(hay, bonus) && Matches(needle, hay, at) && at[|needle| - 2] > |needle| - 2
    ensures Within(at, |bonus|) && Score(bonus, 0, at) < CHARACTER_SCORE + START_BONUS + OwnFrom(needle, 1)
  {
    var n := |needle|;
    LastThree(needle, hay, at, n, n + 5);
    ScoreAtMost(needle, hay, bonus, at);
    if at[n - 2] < n {
      LeavesWithOne(needle, at);
    } else {
      assert at[n - 2] == n + 5 && at[n - 1] == n + 6;
      LeavesWithTwo(needle, at);
    }
  }

  lemma LatePairTempts(needle: string, hay: string, bonus: seq<nat>)
    requires LatePair(needle, hay) && Plain(hay, bonus)
    ensures Tempting(needle, hay, bonus)
  {
    assert SameAt(needle, hay, |needle| - 3) && PlainAt(hay, bonus, |needle| - 2);
  }

  lemma LatePairIsNotBest(needle: string, hay: string, bonus: seq<nat>, best: seq<nat>)
    requires LatePair(needle, hay) && Plain(hay, bonus)
    requires Matches(needle, hay, best) && Within(best, |bonus|) && Score(bonus, 0, best) == CHARACTER_SCORE + START_BONUS + OwnFrom(needle, 1)
    ensures Outscored(needle, hay, bonus, best)
  {
    var n := |needle|;
    FoundSomewhere(needle, hay, bonus, best);
    LatePairTempts(needle, hay, bonus);
    var at := Search(needle, hay, bonus, 0, 0).value.indices;
    PairGoes(needle, hay, bonus, at);
    LatePairFalls(needle, hay, bonus, at);
  }

  lemma SplitPairFalls(needle: string, hay: string, bonus: seq<nat>, at: seq<nat>)
    requires SplitPair(needle, hay) && Plain(hay, bonus) && Matches(needle, hay, at) && at[|needle| - 2] > |needle| - 2
    ensures Within(at, |bonus|) && Score(bonus, 0, at) < CHARACTER_SCORE + START_BONUS + OwnFrom(needle, 1) - CONSECUTIVE_BONUS - 1
  {
    var n := |needle|;
    LastThree(needle, hay, at, n - 1, n);
    LastThree(needle, hay, at, n + 1, n + 6);
    ScoreAtMost(needle, hay, bonus, at);
    if at[n - 2] == n {
      LeavesWithOne(needle, at);
    } else {
      assert at[n - 2] == n + 6 && at[n - 1] == n + 7;
      LeavesWithTwo(needle, at);
    }
  }

  lemma SplitPlace(needle: string, hay: string, bonus: seq<nat>)
    requires SplitPair(needle, hay) && Plain(hay, bonus)
    ensures var n := |needle|;
            && Matches(needle, hay, Placed(0, n, n)) && Within(Placed(0, n, n), |bonus|)
            && Score(bonus, 0, Placed(0, n, n)) == CHARACTER_SCORE + START_BONUS + OwnFrom(needle, 1) - CONSECUTIVE_BONUS - 1
  {
    var n := |needle|;
    assert PlainAt(hay, bonus, n);
    PlacedMatches(needle, hay, n);
    PlacedScore(needle, hay, bonus, n);
  }

  lemma SplitPairIsNotBest(needle: string, hay: string, bonus: seq<nat>, best: seq<nat>)
    requires SplitPair(needle, hay) && Plain(hay, bonus)
    requires Matches(needle, hay, best) && Within(best, |bonus|) && Score(bonus, 0, best) == CHARACTER_SCORE + START_BONUS + OwnFrom(needle, 1) - CONSECUTIVE_BONUS - 1
    ensures Outscored(needle, hay, bonus, best)
  {
    var n := |needle|;
    assert StrangerAt(needle, hay, n - 1);
    FoundSomewhere(needle, hay, bonus, best);
    var at := Search(needle, hay, bonus, 0, 0).value.indices;
    PairGoes(needle, hay, bonus, at);
    SplitPairFalls(needle, hay, bonus, at);
  }

  // ---------------------------------------------------------------- every other query has such a target

  const ROOM := 8

  function Filler(needle: string): char {
    if Stranger(needle, 'a') then 'a' else if Stranger(needle, 'b') then 'b' else if Stranger(needle, 'c') then 'c' else 'd'
  }

  function Boundary(needle: string): char {
    if Stranger(needle, '.') then '.' else if Stranger(needle, ',') then ',' else if Stranger(needle, ':') then ':' else '/'
  }

  lemma FillerIsStranger(needle: string)
    ensures Stranger(needle, Filler(needle)) && Filler(needle) in "abcd"
  {
    if !Stranger(needle, 'a') && !Stranger(needle, 'b') && !Stranger(needle, 'c') {
      OneStranger(needle, 'a', 'b', 'c', 'd');
    }
    assert "abcd"[0] == 'a' && "abcd"[1] == 'b' && "abcd"[2] == 'c' && "abcd"[3] == 'd';
  }

  lemma BoundaryIsStranger(needle: string)
    ensures Stranger(needle, Boundary(needle)) && Boundary(needle) in SEPARATORS
  {
    if !Stranger(needle, '.') && !Stranger(needle, ',') && !Stranger(needle, ':') {
      OneStranger(needle, '.', ',', ':', '/');
    }
    assert SEPARATORS[4] == '.' && SEPARATORS[12] == ',' && SEPARATORS[5] == ':' && SEPARATORS[3] == '/';
  }

  /** Three characters cannot be four. */
  lemma OneStranger(needle: string, a: char, b: char, c: char, d: char)
    requires a != b && a != c && a != d && b != c && b != d && c != d
    requires !Stranger(needle, a) && !Stranger(needle, b) && !Stranger(needle, c)
    ensures Stranger(needle, d)
  {
    var i :| 0 <= i < |needle| && |needle| - 3 <= i && needle[i] == a;
    var j :| 0 <= j < |needle| && |needle| - 3 <= j && needle[j] == b;
    var k :| 0 <= k < |needle| && |needle| - 3 <= k && needle[k] == c;
    assert i != j && j != k && i != k;
  }

  function Lure(needle: string): string
    requires |needle| >= 2
  {
    var n, x, d := |needle|, Filler(needle), Boundary(needle);
    var s, last := needle[n - 2], needle[n - 1];
    if s !in SEPARATORS then needle + [x, x, x, x, d, last]
    else if n == 2 || needle[n - 3] !in SEPARATORS then needle + [x, x, x, x, d, s, last]
    else needle[..n - 1] + [d, last, x, x, x, x, d, s, last]
  }

  lemma LureIsOne(needle: string)
    requires |needle| >= 2 && !SeparatedPair(needle)
    ensures var hay := Lure(needle); LateLast(needle, hay) || LatePair(needle, hay) || SplitPair(needle, hay)
    ensures |Lure(needle)| <= |needle| + ROOM
  {
    FillerIsStranger(needle);
    BoundaryIsStranger(needle);

  }

  predicate NoCapitals(s: string) { forall i :: 0 <= i < |s| ==> !('A' <= s[i] <= 'Z') }

  lemma LureIsLower(needle: string)
    requires |needle| >= 2 && NoCapitals(needle)
    ensures NoCapitals(Lure(needle))
  {
    var n, x, d := |needle|, Filler(needle), Boundary(needle);
    LowerTogether(needle, [x, x, x, x, d, needle[n - 1]]);
    LowerTogether(needle, [x, x, x, x, d, needle[n - 2], needle[n - 1]]);
    LowerTogether(needle[..n - 1], [d, needle[n - 1], x, x, x, x, d, needle[n - 2], needle[n - 1]]);
  }

  lemma LowerTogether(a: string, b: string)
    requires NoCapitals(a) && NoCapitals(b)
    ensures NoCapitals(a + b)
  {
  }

  lemma NeedleIsLower(query: string)
    ensures NoCapitals(Needle(query))
  {
  }

  lemma LowerIsPlain(target: string)
    requires NoCapitals(target)
    ensures Lowered(target, Ascii()) == target && Plain(target, Bonuses(target, Ascii()))
  {
    forall i | 0 <= i < |target| ensures !IsUpper(target[i], Ascii()) {
    }
  }

  lemma LureIsNotBest(needle: string, hay: string, bonus: seq<nat>) returns (best: seq<nat>)
    requires |needle| >= 2 && !SeparatedPair(needle) && hay == Lure(needle) && Plain(hay, bonus)
    ensures Outscored(needle, hay, bonus, best)
  {
    LureIsOne(needle);
    if LateLast(needle, hay) {
      best := Placed(0, |needle|, |needle| - 1);
      OwnPlace(needle, hay, bonus);
      LateLastIsNotBest(needle, hay, bonus, best);
    } else if LatePair(needle, hay) {
      best := Placed(0, |needle|, |needle| - 1);
      OwnPlace(needle, hay, bonus);
      LatePairIsNotBest(needle, hay, bonus, best);
    } else {
      best := Placed(0, |needle|, |needle|);
      SplitPlace(needle, hay, bonus);
      SplitPairIsNotBest(needle, hay, bonus, best);
    }
  }

  lemma NotMatchedBest(query: string, target: string, best: seq<nat>)
    requires Needle(query) != [] && target != [] && |Needle(query)| <= |target| <= MAX_TARGET_LENGTH
    requires Outscored(Needle(query), Lowered(target, Ascii()), Bonuses(target, Ascii()), best)
    ensures !BestMatch(query, target, Ascii())
  {
  }

  lemma LureIsNotMatchedBest(query: string)
    requires var needle := Needle(query); 2 <= |needle| <= MAX_TARGET_LENGTH - ROOM && !SeparatedPair(needle)
    ensures !BestMatch(query, Lure(Needle(query)), Ascii())
  {
    var needle := Needle(query);
    NeedleIsLower(query);
    LureIsLower(needle);
    LureIsOne(needle);
    LowerIsPlain(Lure(needle));
    var best := LureIsNotBest(needle, Lure(needle), Bonuses(Lure(needle), Ascii()));
    NotMatchedBest(query, Lure(needle), best);
  }

  /** A query that leaves eight characters of the longest target free is matched best in every target
      exactly when it has at most one character, or two of which the first is a separator. */
  lemma MatchedBestIff(query: string)
    requires |Needle(query)| <= MAX_TARGET_LENGTH - ROOM
    ensures (forall target :: BestMatch(query, target, Ascii())) <==> |Needle(query)| <= 1 || SeparatedPair(Needle(query))
  {
    if |Needle(query)| <= 1 || SeparatedPair(Needle(query)) {
      forall target ensures BestMatch(query, target, Ascii()) {
        ShortIsMatchedBest(query, target);
      }
    } else {
      LureIsNotMatchedBest(query);
    }
  }
}
