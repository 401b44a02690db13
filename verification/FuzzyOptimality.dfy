/** The search of backend/src/routes/fuzzy.ts under whatever bonuses: when it finds the best placement,
    and how far below it the answer can be. */
module FuzzyOptimality {
  import opened Collections
  import opened FuzzyMatcher

  /** No placement scores more than the answer. */
  ghost predicate BestAnswered(needle: string, hay: string, bonus: seq<nat>)
    requires |bonus| == |hay|
  {
    forall at :: Matches(needle, hay, at) ==>
      Within(at, |bonus|) && Search(needle, hay, bonus, 0, 0).Some? && Score(bonus, 0, at) <= Search(needle, hay, bonus, 0, 0).value.score
  }

  ghost predicate AlwaysBestAnswered(needle: string) {
    forall hay: string, bonus: seq<nat> :: |bonus| == |hay| ==> BestAnswered(needle, hay, bonus)
  }

  // ---------------------------------------------------------------- where it is the best

  /** Two neighbours of the target are nowhere two neighbours of the query. */
  predicate NoPairs(needle: string, hay: string) {
    forall q, t :: 0 <= q < |needle| - 1 && 0 <= t < |hay| - 1 ==> !(hay[t] == needle[q] && hay[t + 1] == needle[q + 1])
  }

  /** A character put on `t` does as well as its rest, if the answer for the rest keeps the adjacency. */
  lemma TakenKeepsUp(needle: string, hay: string, bonus: seq<nat>, q: nat, t: nat, at: seq<nat>)
    requires |bonus| == |hay| && q < |needle| && t < |hay|
    requires Spells(needle, hay, q, t, at) && at[0] == t && Within(at, |bonus|) && Within(at[1..], |bonus|)
    requires Search(needle, hay, bonus, q + 1, t + 1).Some?
    requires Search(needle, hay, bonus, q + 1, t + 1).value.score >= Score(bonus, t + 1, at[1..])
    requires |at| > 1 && at[1] == t + 1 ==>
               var rest := Search(needle, hay, bonus, q + 1, t + 1).value.indices; rest != [] && rest[0] == t + 1
    ensures Taken(needle, hay, bonus, q, t).Some? && Taken(needle, hay, bonus, q, t).value.score >= Score(bonus, t, at)
  {
    assert at == [t] + at[1..];
    ScoreCons(bonus, t, at[1..]);
  }

  lemma {:induction false} BestWithoutPairs(needle: string, hay: string, bonus: seq<nat>, q: nat, t: nat, at: seq<nat>)
    requires |bonus| == |hay| && q <= |needle| && t <= |hay| && NoPairs(needle, hay) && Spells(needle, hay, q, t, at)
    ensures Within(at, |bonus|) && Search(needle, hay, bonus, q, t).Some?
    ensures Search(needle, hay, bonus, q, t).value.score >= Score(bonus, t, at)
    decreases |hay| - t
  {
    SpellsFits(needle, hay, q, t, at);
    if at != [] {
      if at[0] > t {
        BestWithoutPairs(needle, hay, bonus, q, t + 1, at);
        ScoreSkip(bonus, t, at);
      } else {
        BestWithoutPairs(needle, hay, bonus, q + 1, t + 1, at[1..]);
        if |at| > 1 {
          assert hay[at[1]] == needle[q + 1];
        }
        TakenKeepsUp(needle, hay, bonus, q, t, at);
      }
    }
  }

  /** A match in which no adjacency bonus can arise is the best one. */
  lemma NoPairsIsBest(needle: string, hay: string, bonus: seq<nat>)
    requires |bonus| == |hay| && NoPairs(needle, hay)
    ensures BestAnswered(needle, hay, bonus)
  {
    forall at | Matches(needle, hay, at)
      ensures Within(at, |bonus|) && Search(needle, hay, bonus, 0, 0).Some?
              && Score(bonus, 0, at) <= Search(needle, hay, bonus, 0, 0).value.score
    {
      MatchesIsSpells(needle, hay, at);
      BestWithoutPairs(needle, hay, bonus, 0, 0, at);
    }
  }

  // ---------------------------------------------------------------- where it is not

  /** `n` numbers from `from` on. */
  function Count(from: nat, n: nat): (s: seq<nat>)
    ensures |s| == n && forall i :: 0 <= i < n ==> s[i] == from + i
  {
    seq(n, i requires 0 <= i < n => from + i)
  }

  /** An answer that starts right at `t` goes on with the answer behind `t`. */
  lemma StartsHere(needle: string, hay: string, bonus: seq<nat>, q: nat, t: nat)
    requires |bonus| == |hay| && q < |needle| && t <= |hay|
    requires Search(needle, hay, bonus, q, t).Some?
    requires Search(needle, hay, bonus, q, t).value.indices != [] && Search(needle, hay, bonus, q, t).value.indices[0] == t
    ensures t < |hay| && Search(needle, hay, bonus, q + 1, t + 1).Some?
    ensures Search(needle, hay, bonus, q, t).value.indices == [t] + Search(needle, hay, bonus, q + 1, t + 1).value.indices
  {
    FoundIsAPlacement(needle, hay, bonus, q, t + 1);
  }

  lemma {:induction false} StraightDown(needle: string, hay: string, bonus: seq<nat>, q: nat)
    requires |bonus| == |hay| && q < |needle| <= |hay|
    requires Search(needle, hay, bonus, 0, 0).Some? && Search(needle, hay, bonus, 0, 0).value.indices == Count(0, |needle|)
    ensures Search(needle, hay, bonus, q, q).Some? && Search(needle, hay, bonus, q, q).value.indices == Count(q, |needle| - q)
  {
    if q > 0 {
      StraightDown(needle, hay, bonus, q - 1);
      StartsHere(needle, hay, bonus, q - 1, q - 1);
      var all, rest := Count(q - 1, |needle| - q + 1), Search(needle, hay, bonus, q, q).value.indices;
      assert all[1..] == rest == Count(q, |needle| - q);
    }
  }

  /** The query itself, two other characters, and once more its last one, on a bonus that makes the
      last one worth the detour but not the loss of an adjacency. */
  predicate Decoy(needle: string, hay: string, bonus: seq<nat>) {
    var n := |needle|;
    && n >= 2 && |hay| == |bonus| == n + 3 && hay[..n] == needle
    && hay[n] != needle[n - 1] && hay[n + 1] != needle[n - 1] && hay[n + 1] != needle[n - 2] && hay[n + 2] == needle[n - 1]
    && (forall i :: 1 <= i < n + 2 ==> bonus[i] == 0)
    && 4 <= bonus[n + 2] <= 14
  }

  lemma LastGoesAstray(needle: string, hay: string, bonus: seq<nat>)
    requires Decoy(needle, hay, bonus)
    ensures var n := |needle|; Search(needle, hay, bonus, n - 1, n - 1) == Some(Match(bonus[n + 2] - 2, [n + 2]))
  {
    var n := |needle|;
    Candidate(needle, hay, bonus, n - 1, n + 2, Match(0, []), None);
    assert [n + 2] + [] == [n + 2];
    RunsUp(needle, hay, bonus, n - 1, n, n + 2);
    assert hay[n - 1] == hay[..n][n - 1];
    Candidate(needle, hay, bonus, n - 1, n - 1, Match(0, []), Search(needle, hay, bonus, n - 1, n));
  }

  predicate Ascending(at: seq<nat>) { forall i, j :: 0 <= i < j < |at| ==> at[i] < at[j] }

  lemma TailAscends(at: seq<nat>)
    requires at != [] && Ascending(at)
    ensures Ascending(at[1..]) && (|at| > 1 ==> at[1..][|at| - 2] == at[|at| - 1] && at[0] < at[1])
  {
  }

  lemma {:induction false} CharactersInDecoy(bonus: seq<nat>, at: seq<nat>, last: nat)
    requires Ascending(at) && Within(at, |bonus|) && 0 < last == |bonus| - 1
    requires forall i :: 1 <= i < last ==> bonus[i] == 0
    ensures CharacterScores(bonus, at)
            == |at| + (if at != [] && at[0] == 0 then bonus[0] else 0) + (if at != [] && at[|at| - 1] == last then bonus[last] else 0)
    decreases |at|
  {
    if at != [] {
      TailAscends(at);
      assert Within(at[1..], |bonus|);
      CharactersInDecoy(bonus, at[1..], last);
      if |at| > 1 {
        assert at[0] < at[|at| - 1] <= last;
      }
    }
  }

  /** Every step that is no adjacency passes over a character. */
  lemma {:induction false} GapsAreSkipped(at: seq<nat>)
    requires at != [] && Ascending(at)
    ensures Adjacencies(at) <= |at| - 1
    ensures at[|at| - 1] >= at[0] + (|at| - 1) + (|at| - 1 - Adjacencies(at))
    ensures Adjacencies(at) == |at| - 1 ==> at == Count(at[0], |at|)
  {
    if |at| > 1 {
      TailAscends(at);
      GapsAreSkipped(at[1..]);
      if Adjacencies(at) == |at| - 1 {
        assert at[1..] == Count(at[1], |at| - 1);
        forall i | 0 <= i < |at| ensures at[i] == at[0] + i {
          assert i > 0 ==> at[i] == at[1..][i - 1];
        }
      }
    }
  }

  lemma {:induction false} CountIsAdjacent(from: nat, n: nat)
    requires n > 0
    ensures Adjacencies(Count(from, n)) == n - 1
    decreases n
  {
    if n > 1 {
      assert Count(from, n)[1..] == Count(from + 1, n - 1);
      CountIsAdjacent(from + 1, n - 1);
    }
  }

  lemma NoOtherRun(needle: string, hay: string, bonus: seq<nat>, at: seq<nat>)
    requires Decoy(needle, hay, bonus) && Matches(needle, hay, at) && at == Count(at[0], |at|)
    ensures at[0] == 0
  {
    var n, s := |needle|, at[0];
    assert at[n - 1] == s + n - 1 && at[n - 2] == s + n - 2;
    assert hay[at[n - 1]] == needle[n - 1] && hay[at[n - 2]] == needle[n - 2];
  }

  lemma OwnScore(needle: string, hay: string, bonus: seq<nat>)
    requires Decoy(needle, hay, bonus)
    ensures Within(Count(0, |needle|), |bonus|)
    ensures Score(bonus, 0, Count(0, |needle|)) == |needle| + bonus[0] + CONSECUTIVE_BONUS * (|needle| - 1)
  {
    CharactersInDecoy(bonus, Count(0, |needle|), |needle| + 2);
    CountIsAdjacent(0, |needle|);
  }

  lemma OtherIsNoRun(needle: string, hay: string, bonus: seq<nat>, at: seq<nat>)
    requires Decoy(needle, hay, bonus) && Matches(needle, hay, at) && at != Count(0, |needle|)
    ensures Adjacencies(at) <= |needle| - 2
  {
    GapsAreSkipped(at);
    if Adjacencies(at) == |needle| - 1 {
      NoOtherRun(needle, hay, bonus, at);
    }
  }

  /** No placement but the query's own place is as good as it. */
  lemma OthersScoreLess(needle: string, hay: string, bonus: seq<nat>, at: seq<nat>)
    requires Decoy(needle, hay, bonus) && Matches(needle, hay, at) && at != Count(0, |needle|)
    ensures Within(at, |bonus|) && Within(Count(0, |needle|), |bonus|)
    ensures Score(bonus, 0, at) < Score(bonus, 0, Count(0, |needle|))
  {
    OwnScore(needle, hay, bonus);
    OtherIsNoRun(needle, hay, bonus, at);
    CharactersInDecoy(bonus, at, |needle| + 2);
    GapsAreSkipped(at);
  }

  lemma OwnPlaceMatches(needle: string, hay: string, bonus: seq<nat>)
    requires Decoy(needle, hay, bonus)
    ensures Matches(needle, hay, Count(0, |needle|)) && Within(Count(0, |needle|), |bonus|)
  {
    assert forall i :: 0 <= i < |needle| ==> hay[i] == hay[..|needle|][i] == needle[i];
  }

  lemma FoundElsewhere(needle: string, hay: string, bonus: seq<nat>)
    requires Decoy(needle, hay, bonus) && Search(needle, hay, bonus, 0, 0).Some?
    ensures Search(needle, hay, bonus, 0, 0).value.indices != Count(0, |needle|)
  {
    var n := |needle|;
    LastGoesAstray(needle, hay, bonus);
    assert Count(n - 1, 1)[0] == n - 1 && [n + 2][0] == n + 2;
    if Search(needle, hay, bonus, 0, 0).value.indices == Count(0, n) {
      StraightDown(needle, hay, bonus, n - 1);
    }
  }

  lemma DecoyIsFound(needle: string, hay: string, bonus: seq<nat>)
    requires Decoy(needle, hay, bonus)
    ensures Search(needle, hay, bonus, 0, 0).Some?
  {
    OwnPlaceMatches(needle, hay, bonus);
    MatchesIsSpells(needle, hay, Count(0, |needle|));
    NearBest(needle, hay, bonus, 0, 0, Count(0, |needle|));
  }

  lemma DecoyIsNotBest(needle: string, hay: string, bonus: seq<nat>)
    requires Decoy(needle, hay, bonus)
    ensures Matches(needle, hay, Count(0, |needle|)) && Within(Count(0, |needle|), |bonus|)
    ensures var r := Search(needle, hay, bonus, 0, 0); r.Some? && r.value.score < Score(bonus, 0, Count(0, |needle|))
  {
    OwnPlaceMatches(needle, hay, bonus);
    DecoyIsFound(needle, hay, bonus);
    FoundElsewhere(needle, hay, bonus);
    FoundIsAPlacement(needle, hay, bonus, 0, 0);
    var found := Search(needle, hay, bonus, 0, 0).value.indices;
    MatchesIsSpells(needle, hay, found);
    OthersScoreLess(needle, hay, bonus, found);
  }

  /** A character that is neither of two. */
  function Other(a: char, b: char): (c: char)
    ensures c != a && c != b
  {
    if a != 'a' && b != 'a' then 'a' else if a != 'b' && b != 'b' then 'b' else 'c'
  }

  lemma ShortIsBest(needle: string, hay: string, bonus: seq<nat>)
    requires |bonus| == |hay| && |needle| <= 1
    ensures BestAnswered(needle, hay, bonus)
  {
    NoPairsIsBest(needle, hay, bonus);
  }

  lemma HasDecoy(needle: string) returns (hay: string, bonus: seq<nat>)
    requires |needle| >= 2
    ensures Decoy(needle, hay, bonus)
  {
    var n := |needle|;
    var x := Other(needle[n - 1], needle[n - 2]);
    hay := needle + [x, x, needle[n - 1]];
    bonus := seq(n + 3, i requires 0 <= i < n + 3 => if i == n + 2 then 5 else 0);
    assert hay[..n] == needle;
  }

  lemma DecoyIsNotBestAnswered(needle: string, hay: string, bonus: seq<nat>)
    requires Decoy(needle, hay, bonus)
    ensures !BestAnswered(needle, hay, bonus)
  {
    DecoyIsNotBest(needle, hay, bonus);
  }

  /** The search answers a query best in every target, with every bonus, exactly when the query has at
      most one character. */
  lemma AlwaysBestIffShort(needle: string)
    ensures AlwaysBestAnswered(needle) <==> |needle| <= 1
  {
    if |needle| <= 1 {
      forall hay: string, bonus: seq<nat> | |bonus| == |hay| ensures BestAnswered(needle, hay, bonus) {
        ShortIsBest(needle, hay, bonus);
      }
    } else {
      var hay, bonus := HasDecoy(needle);
      DecoyIsNotBestAnswered(needle, hay, bonus);
    }
  }

  // ---------------------------------------------------------------- how far below the best

  /** A query of `n` characters and a target that holds it whole, followed by its characters but the
      first, each apart from the others on a bonus of one, the last on one that pays for the way. */
  function Chain(n: nat): string { seq(n, i requires 0 <= i < n => if i == 0 then 'b' else 'a') }

  function ChainPlace(n: nat, i: nat): char {
    if i == 0 then 'b' else if i < n || (i - n) % 2 == 1 then 'a' else 'x'
  }

  function ChainTarget(n: nat): (s: string)
    requires n >= 1
    ensures |s| == 3 * n - 2
  {
    seq(3 * n - 2, i requires 0 <= i < 3 * n - 2 => ChainPlace(n, i))
  }

  function ChainBonus(n: nat): (s: seq<nat>)
    requires n >= 1
    ensures |s| == 3 * n - 2
  {
    seq(3 * n - 2, i requires 0 <= i < 3 * n - 2 =>
      if i < n || (i - n) % 2 == 0 then 0 else if i == 3 * n - 3 then 2 * n - 1 else 1)
  }

  ghost predicate IsChain(n: nat, needle: string, hay: string, bonus: seq<nat>) {
    n >= 2 && needle == Chain(n) && hay == ChainTarget(n) && bonus == ChainBonus(n)
  }

  /** The answer for the last `n - q` characters where `k` of the scattered ones are left. */
  function Scattered(n: nat, m: nat, k: nat): int { 3 * m + 2 * n - 2 - 2 * k }

  ghost predicate ScatteredAnswer(n: nat, needle: string, hay: string, bonus: seq<nat>, q: nat, k: nat)
    requires IsChain(n, needle, hay, bonus) && 1 <= q <= n && k <= n - 1
  {
    var m, r := n - q, Search(needle, hay, bonus, q, 3 * n - 2 - 2 * k);
    if m == 0 then r == Some(Match(0, []))
    else if m > k then r == None
    else r.Some? && r.value.score == Scattered(n, m, k)
  }

  /** Where an answer starts there is the character asked for. */
  lemma StartsOnCharacter(needle: string, hay: string, bonus: seq<nat>, q: nat, t: nat)
    requires |bonus| == |hay| && q < |needle| && t <= |hay| && Search(needle, hay, bonus, q, t).Some?
    ensures var at := Search(needle, hay, bonus, q, t).value.indices;
            at != [] && t <= at[0] < |hay| && hay[at[0]] == needle[q]
  {
    FoundIsAPlacement(needle, hay, bonus, q, t);
  }

  lemma ScatteredPlace(n: nat, needle: string, hay: string, bonus: seq<nat>, k: nat)
    requires IsChain(n, needle, hay, bonus) && 1 <= k <= n - 1
    ensures var t := 3 * n - 2 - 2 * k;
            hay[t] == 'x' && hay[t + 1] == 'a' && bonus[t + 1] == (if k == 1 then 2 * n - 1 else 1) && (k > 1 ==> hay[t + 2] == 'x')
  {
    var t := 3 * n - 2 - 2 * k;
    TwoByTwo(n - 1 - k);
    assert t - n == 2 * (n - 1 - k) && hay[t] == ChainPlace(n, t) && hay[t + 1] == ChainPlace(n, t + 1);
    if k > 1 {
      TwoByTwo(n - k);
      assert hay[t + 2] == ChainPlace(n, t + 2);
    }
  }

  lemma TwoByTwo(j: nat)
    ensures (2 * j) % 2 == 0 && (2 * j + 1) % 2 == 1
  {
  }

  /** One stretch of the target: a character that does not match and one that may be taken. */
  lemma TwoPlaces(needle: string, hay: string, bonus: seq<nat>, q: nat, t: nat, rest: Option<Match>, skipped: Option<Match>)
    requires |bonus| == |hay| && q < |needle| && t + 2 <= |hay| && hay[t] != needle[q] && hay[t + 1] == needle[q]
    requires |needle| - q <= |hay| - t - 1
    requires Search(needle, hay, bonus, q + 1, t + 2) == rest && Search(needle, hay, bonus, q, t + 2) == skipped
    requires rest.Some? && rest.value.indices != [] ==> rest.value.indices[0] != t + 2
    ensures var r := Search(needle, hay, bonus, q, t);
            if rest == None && skipped == None then r == None
            else if rest == None then r.Some? && r.value.score == skipped.value.score - 2
            else if skipped == None then r.Some? && r.value.score == bonus[t + 1] + rest.value.score
            else
              var taken, passed := bonus[t + 1] + rest.value.score, skipped.value.score - 2;
              r.Some? && r.value.score == if taken >= passed then taken else passed
  {
    assert Search(needle, hay, bonus, q, t + 1) == Better(Taken(needle, hay, bonus, q, t + 1), Penalised(skipped));
    assert Search(needle, hay, bonus, q, t) == Penalised(Search(needle, hay, bonus, q, t + 1));
  }

  lemma {:induction false} ScatteredSearch(n: nat, needle: string, hay: string, bonus: seq<nat>, q: nat, k: nat)
    requires IsChain(n, needle, hay, bonus) && 1 <= q <= n && k <= n - 1
    ensures ScatteredAnswer(n, needle, hay, bonus, q, k)
    decreases k
  {
    if q < n && k > 0 {
      ScatteredSearch(n, needle, hay, bonus, q, k - 1);
      ScatteredSearch(n, needle, hay, bonus, q + 1, k - 1);
      ScatteredStep(n, needle, hay, bonus, q, k);
    }
  }

  lemma ScatteredStep(n: nat, needle: string, hay: string, bonus: seq<nat>, q: nat, k: nat)
    requires IsChain(n, needle, hay, bonus) && 1 <= q < n && 1 <= k <= n - 1
    requires ScatteredAnswer(n, needle, hay, bonus, q, k - 1) && ScatteredAnswer(n, needle, hay, bonus, q + 1, k - 1)
    ensures ScatteredAnswer(n, needle, hay, bonus, q, k)
  {
    var m, t := n - q, 3 * n - 2 - 2 * k;
    ScatteredPlace(n, needle, hay, bonus, k);
    if m > 2 * k - 1 {
      TooFewPlaces(needle, hay, bonus, q, t);
      ScatteredScores(n, m, k);
    } else {
      ScatteredChoice(n, needle, hay, bonus, q, k);
    }
  }

  lemma ScatteredChoice(n: nat, needle: string, hay: string, bonus: seq<nat>, q: nat, k: nat)
    requires IsChain(n, needle, hay, bonus) && 1 <= q < n && 1 <= k <= n - 1 && n - q <= 2 * k - 1
    requires ScatteredAnswer(n, needle, hay, bonus, q, k - 1) && ScatteredAnswer(n, needle, hay, bonus, q + 1, k - 1)
    ensures ScatteredAnswer(n, needle, hay, bonus, q, k)
  {
    var m, t := n - q, 3 * n - 2 - 2 * k;
    ScatteredPlace(n, needle, hay, bonus, k);
    var rest, skipped := Search(needle, hay, bonus, q + 1, t + 2), Search(needle, hay, bonus, q, t + 2);
    if m > 1 && rest.Some? {
      StartsOnCharacter(needle, hay, bonus, q + 1, t + 2);
    }
    TwoPlaces(needle, hay, bonus, q, t, rest, skipped);
    ScatteredScores(n, m, k);
  }

  /** Taking a place or leaving it, the better of the two. */
  lemma ScatteredScores(n: nat, m: nat, k: nat)
    requires 1 <= m && 1 <= k <= n - 1
    ensures m < k && m > 1 ==> Scattered(n, m, k) == 1 + 1 + Scattered(n, m - 1, k - 1) - 1 == Scattered(n, m, k - 1) - 2
    ensures m == k > 1 ==> Scattered(n, m, k) == 1 + Scattered(n, m - 1, k - 1)
    ensures m == 1 && k > 1 ==> Scattered(n, m, k) == Scattered(n, m, k - 1) - 2 >= 1
    ensures m == k == 1 ==> Scattered(n, m, k) == 2 * n - 1
  {
  }

  lemma TooFewPlaces(needle: string, hay: string, bonus: seq<nat>, q: nat, t: nat)
    requires |bonus| == |hay| && q < |needle| && t < |hay| && hay[t] != needle[q] && |needle| - q >= |hay| - t
    ensures Search(needle, hay, bonus, q, t) == None
  {
  }

  /** In the query's own place the search leaves for the scattered characters, each time for the sake
      of a single point. */
  ghost predicate ChainAnswer(n: nat, needle: string, hay: string, bonus: seq<nat>, q: nat, t: nat)
    requires IsChain(n, needle, hay, bonus) && 1 <= q < n && q <= t <= n
  {
    var r := Search(needle, hay, bonus, q, t);
    r.Some? && r.value.score == 2 * n - 3 * q + t && r.value.indices != [] && r.value.indices[0] > n
  }

  lemma ChainStep(n: nat, needle: string, hay: string, bonus: seq<nat>, q: nat, t: nat, rest: Match, later: Match)
    requires IsChain(n, needle, hay, bonus) && 1 <= q < n && q <= t < n
    requires Search(needle, hay, bonus, q + 1, t + 1) == Some(rest) && Search(needle, hay, bonus, q, t + 1) == Some(later)
    requires rest.indices != [] ==> rest.indices[0] > n
    requires rest.score < later.score - 2
    ensures Search(needle, hay, bonus, q, t) == Some(Match(later.score - 1, later.indices))
  {
    Candidate(needle, hay, bonus, q, t, rest, Some(later));
  }

  lemma {:induction false} ChainSearch(n: nat, needle: string, hay: string, bonus: seq<nat>, q: nat, t: nat)
    requires IsChain(n, needle, hay, bonus) && 1 <= q < n && q <= t <= n
    ensures ChainAnswer(n, needle, hay, bonus, q, t)
    decreases n - t
  {
    if t == n {
      ScatteredSearch(n, needle, hay, bonus, q, n - 1);
      StartsOnCharacter(needle, hay, bonus, q, n);
    } else {
      ChainSearch(n, needle, hay, bonus, q, t + 1);
      if q + 1 < n {
        ChainSearch(n, needle, hay, bonus, q + 1, t + 1);
      }
      ChainStep(n, needle, hay, bonus, q, t, Search(needle, hay, bonus, q + 1, t + 1).value, Search(needle, hay, bonus, q, t + 1).value);
    }
  }

  lemma OwnPlaceInChain(n: nat, needle: string, hay: string, bonus: seq<nat>)
    requires IsChain(n, needle, hay, bonus)
    ensures Matches(needle, hay, Count(0, n)) && Within(Count(0, n), |bonus|)
    ensures Score(bonus, 0, Count(0, n)) == n + CONSECUTIVE_BONUS * (n - 1)
  {
    CountIsAdjacent(0, n);
    NoBonusAtAll(bonus, Count(0, n));
  }

  lemma {:induction false} NoBonusAtAll(bonus: seq<nat>, at: seq<nat>)
    requires Within(at, |bonus|) && forall i :: 0 <= i < |at| ==> bonus[at[i]] == 0
    ensures CharacterScores(bonus, at) == |at|
    decreases |at|
  {
    if at != [] {
      NoBonusAtAll(bonus, at[1..]);
    }
  }

  lemma ChainFound(n: nat, needle: string, hay: string, bonus: seq<nat>)
    requires IsChain(n, needle, hay, bonus)
    ensures Search(needle, hay, bonus, 0, 0).Some? && Search(needle, hay, bonus, 0, 0).value.score == 2 * n - 1
  {
    ChainSearch(n, needle, hay, bonus, 1, 1);
    NoneWithout(needle, hay, bonus, 0, 1);
    Candidate(needle, hay, bonus, 0, 0, Search(needle, hay, bonus, 1, 1).value, None);
  }

  /** Under arbitrary bonuses the bound of 11 for each character after the first is attained by queries
      of every length. */
  lemma GapIsAttainedAtEveryLength(n: nat)
    requires n >= 1
    ensures exists needle: string, hay: string, bonus: seq<nat>, at ::
              && |needle| == n && |hay| == |bonus| && Matches(needle, hay, at) && Within(at, |bonus|)
              && Search(needle, hay, bonus, 0, 0).Some?
              && Score(bonus, 0, at) == Search(needle, hay, bonus, 0, 0).value.score + GAP * (n - 1)
  {
    if n == 1 {
      var bonus: seq<nat> := [0];
      ShortIsFound(bonus);
    } else {
      var needle, hay, bonus := Chain(n), ChainTarget(n), ChainBonus(n);
      OwnPlaceInChain(n, needle, hay, bonus);
      ChainFound(n, needle, hay, bonus);
    }
  }

  lemma ShortIsFound(bonus: seq<nat>)
    requires bonus == [0]
    ensures Matches("a", "a", [0]) && Within([0], |bonus|) && Search("a", "a", bonus, 0, 0).Some?
    ensures Score(bonus, 0, [0]) == Search("a", "a", bonus, 0, 0).value.score
  {
    var at: seq<nat> := [0];
    Candidate("a", "a", bonus, 0, 0, Match(0, []), None);
    assert at[1..] == [];
  }
}
