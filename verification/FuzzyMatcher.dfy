/** Subsequence matching for the search box: backend/src/routes/fuzzy.ts. */
module FuzzyMatcher {
  import opened Collections
  import opened Text

  const START_BONUS := 18
  const SEPARATOR_BONUS := 14
  const CAMEL_BONUS := 10
  const CONSECUTIVE_BONUS := 12
  const CHARACTER_SCORE := 1
  const SKIP_PENALTY := 1
  const MAX_TARGET_LENGTH := 240

  const SEPARATORS := " -_/.:@$()[],+"

  datatype Match = Match(score: int, indices: seq<nat>)

  /** Case folding, one character at a time. */
  datatype CaseMap = CaseMap(lower: char -> char, upper: char -> char)

  function Lowered(s: string, cases: CaseMap): string {
    seq(|s|, i requires 0 <= i < |s| => cases.lower(s[i]))
  }

  predicate IsUpper(c: char, cases: CaseMap) { c != cases.lower(c) && c == cases.upper(c) }

  function BoundaryBonus(target: string, index: nat, cases: CaseMap): nat
    requires index < |target|
  {
    if index == 0 then START_BONUS
    else if target[index - 1] in SEPARATORS then SEPARATOR_BONUS
    else if IsUpper(target[index], cases) && !IsUpper(target[index - 1], cases) then CAMEL_BONUS
    else 0
  }

  function Bonuses(target: string, cases: CaseMap): seq<nat> {
    seq(|target|, i requires 0 <= i < |target| => BoundaryBonus(target, i, cases))
  }

  /** What a character is worth for where it stands: 18 at the start, 14 behind a separator, and 10 for a
      capital behind what is none. */
  lemma BonusIs(target: string, i: nat, cases: CaseMap)
    requires i < |target|
    ensures var bonus, c := Bonuses(target, cases)[i], target[i];
            && (i == 0 ==> bonus == 18)
            && (i > 0 ==>
                  var before := target[i - 1];
                  var capital := c != cases.lower(c) && c == cases.upper(c);
                  var afterCapital := before != cases.lower(before) && before == cases.upper(before);
                  bonus == if before in {' ', '-', '_', '/', '.', ':', '@', '$', '(', ')', '[', ']', ',', '+'} then 14
                           else if capital && !afterCapital then 10 else 0)
  {
  }

  function Better(a: Option<Match>, b: Option<Match>): Option<Match> {
    if a == None then b
    else if b == None then a
    else if a.value.score >= b.value.score then a else b
  }

  // ---------------------------------------------------------------- the recursion, without its memo

  /** The best way the recursion knows to place the query from `q` on in the target from `t` on. It
      keeps one answer for each subproblem, so the adjacency bonus of a character depends on which
      answer its successor happened to give. */
  function Search(needle: string, hay: string, bonus: seq<nat>, q: nat, t: nat): Option<Match>
    requires |bonus| == |hay| && q <= |needle| && t <= |hay|
    decreases |hay| - t
  {
    if q == |needle| then Some(Match(0, []))
    else if t == |hay| || |hay| - t < |needle| - q then None
    else Better(Taken(needle, hay, bonus, q, t), Penalised(Search(needle, hay, bonus, q, t + 1)))
  }

  /** Consuming the character at `t`, if it is the next one of the query. */
  function Taken(needle: string, hay: string, bonus: seq<nat>, q: nat, t: nat): Option<Match>
    requires |bonus| == |hay| && q < |needle| && t < |hay|
    decreases |hay| - t, 0
  {
    if hay[t] != needle[q] then None
    else
      match Search(needle, hay, bonus, q + 1, t + 1)
      case None => None
      case Some(rest) => Some(Consumed(bonus[t], t, rest))
  }

  function Consumed(bonus: nat, t: nat, rest: Match): Match {
    var adjacent := rest.indices != [] && rest.indices[0] == t + 1;
    Match(CHARACTER_SCORE + bonus + (if adjacent then CONSECUTIVE_BONUS else 0) + rest.score, [t] + rest.indices)
  }

  function Penalised(skipped: Option<Match>): Option<Match> {
    match skipped
    case None => None
    case Some(m) => Some(Match(m.score - SKIP_PENALTY, m.indices))
  }

  function FuzzyMatch(query: string, target: string, cases: CaseMap): Option<Match> {
    var needle := Lowered(Trim(query), cases);
    if needle == [] then Some(Match(0, []))
    else if target == [] || |target| > MAX_TARGET_LENGTH || |needle| > |target| then None
    else Search(needle, Lowered(target, cases), Bonuses(target, cases), 0, 0)
  }

  /** An empty query, or one of white space alone, matches every target, with no score and no highlight. */
  lemma EmptyQueryMatchesAll(query: string, target: string, cases: CaseMap)
    requires AllSpace(query)
    ensures FuzzyMatch(query, target, cases) == Some(Match(0, []))
  {
    TrimDropsPadding(query, [], []);
    assert query + [] + [] == query;
  }

  /** Neither case nor white space around a query changes what it matches; the case of the target counts
      only for its bonuses. */
  lemma CaseAndSpacesDoNotMatter(query: string, query': string, target: string, cases: CaseMap)
    requires |Trim(query)| == |Trim(query')| && forall i :: 0 <= i < |Trim(query)| ==> cases.lower(Trim(query)[i]) == cases.lower(Trim(query')[i])
    ensures FuzzyMatch(query, target, cases) == FuzzyMatch(query', target, cases)
  {
    assert Lowered(Trim(query), cases) == Lowered(Trim(query'), cases);
  }

  // ---------------------------------------------------------------- the memo

  lemma MultipleIsFar(d: int, width: nat)
    ensures d != 0 ==> d * width >= width || d * width <= 0 - width
  {
    if d > 0 {
      assert (d - 1) * width >= 0;
    } else if d < 0 {
      assert (0 - d - 1) * width >= 0;
    }
  }

  lemma KeyIsInjective(width: nat, q: nat, t: nat, q': nat, t': nat)
    requires t < width && t' < width && q * width + t == q' * width + t'
    ensures q == q' && t == t'
  {
    MultipleIsFar(q - q', width);
    assert (q - q') * width == t' - t;
  }

  class Matcher {
    const needle: string
    const hay: string
    const bonus: seq<nat>
    const width: nat
    var memo: map<nat, Option<Match>>

    /** Every remembered answer is the recursion's own. */
    ghost predicate Valid()
      reads this
    {
      && |bonus| == |hay| && width == |hay| + 1
      && forall q, t :: 0 <= q <= |needle| && 0 <= t <= |hay| && q * width + t in memo ==>
           memo[q * width + t] == Search(needle, hay, bonus, q, t)
    }

    constructor (needle: string, hay: string, bonus: seq<nat>)
      requires |bonus| == |hay|
      ensures Valid() && this.needle == needle && this.hay == hay && this.bonus == bonus
    {
      this.needle, this.hay, this.bonus := needle, hay, bonus;
      width := |hay| + 1;
      memo := map[];
    }

    method Remember(q: nat, t: nat, best: Option<Match>)
      requires Valid() && q <= |needle| && t <= |hay| && best == Search(needle, hay, bonus, q, t)
      modifies this
      ensures Valid()
    {
      ghost var before := memo;
      memo := memo[q * width + t := best];
      forall q', t' | 0 <= q' <= |needle| && 0 <= t' <= |hay| && q' * width + t' in memo
        ensures memo[q' * width + t'] == Search(needle, hay, bonus, q', t')
      {
        if q' * width + t' == q * width + t {
          KeyIsInjective(width, q, t, q', t');
        }
      }
    }

    /** The memoised search answers what the plain recursion answers. */
    method Find(q: nat, t: nat) returns (best: Option<Match>)
      requires Valid() && q <= |needle| && t <= |hay|
      modifies this
      ensures Valid() && best == Search(needle, hay, bonus, q, t)
      decreases |hay| - t
    {
      if q == |needle| {
        return Some(Match(0, []));
      }
      if t == |hay| {
        return None;
      }
      if |hay| - t < |needle| - q {
        return None;
      }
      var key := q * width + t;
      if key in memo {
        return memo[key];
      }
      var taken := None;
      if hay[t] == needle[q] {
        var rest := Find(q + 1, t + 1);
        if rest.Some? {
          var score := CHARACTER_SCORE + bonus[t];
          if rest.value.indices != [] && rest.value.indices[0] == t + 1 {
            score := score + CONSECUTIVE_BONUS;
          }
          taken := Some(Match(score + rest.value.score, [t] + rest.value.indices));
        }
      }
      var skipped := Find(q, t + 1);
      var penalised := if skipped == None then None else Some(Match(skipped.value.score - SKIP_PENALTY, skipped.value.indices));
      best := Better(taken, penalised);
      Remember(q, t, best);
    }
  }

  method RunFuzzyMatch(query: string, target: string, cases: CaseMap) returns (found: Option<Match>)
    ensures found == FuzzyMatch(query, target, cases)
  {
    var needle := Lowered(Trim(query), cases);
    if |needle| == 0 {
      return Some(Match(0, []));
    }
    if |target| == 0 || |target| > MAX_TARGET_LENGTH {
      return None;
    }
    if |needle| > |target| {
      return None;
    }
    var matcher := new Matcher(needle, Lowered(target, cases), Bonuses(target, cases));
    found := matcher.Find(0, 0);
  }

  // ---------------------------------------------------------------- placements and what they score

  /** `at` puts the query from `q` on, in order, on characters of the target from `t` on. */
  predicate Spells(needle: string, hay: string, q: nat, t: nat, at: seq<nat>)
    decreases |at|
  {
    if at == [] then q == |needle|
    else q < |needle| && t <= at[0] < |hay| && hay[at[0]] == needle[q] && Spells(needle, hay, q + 1, at[0] + 1, at[1..])
  }

  predicate Within(at: seq<nat>, n: nat) { forall i :: 0 <= i < |at| ==> at[i] < n }

  function CharacterScores(bonus: seq<nat>, at: seq<nat>): int
    requires Within(at, |bonus|)
  {
    if at == [] then 0 else CHARACTER_SCORE + bonus[at[0]] + CharacterScores(bonus, at[1..])
  }

  /** How many matched characters directly follow the one before. */
  function Adjacencies(at: seq<nat>): nat {
    if |at| < 2 then 0 else (if at[1] == at[0] + 1 then 1 else 0) + Adjacencies(at[1..])
  }

  /** Characters passed over from `t` up to the last match. */
  function Skipped(t: nat, at: seq<nat>): int {
    if at == [] then 0 else at[|at| - 1] + 1 - t - |at|
  }

  function Score(bonus: seq<nat>, t: nat, at: seq<nat>): int
    requires Within(at, |bonus|)
  {
    CharacterScores(bonus, at) + CONSECUTIVE_BONUS * Adjacencies(at) - SKIP_PENALTY * Skipped(t, at)
  }

  /** Placing the query is the same as naming ascending positions that spell it. */
  lemma {:induction false} SpellsMeans(needle: string, hay: string, q: nat, t: nat, at: seq<nat>)
    ensures Spells(needle, hay, q, t, at) <==>
            && q + |at| == |needle|
            && (forall i, j :: 0 <= i < j < |at| ==> at[i] < at[j])
            && (forall i :: 0 <= i < |at| ==> t <= at[i] < |hay| && hay[at[i]] == needle[q + i])
    decreases |at|
  {
    if at != [] {
      var rest := at[1..];
      SpellsMeans(needle, hay, q + 1, at[0] + 1, rest);
      assert forall i :: 0 < i < |at| ==> at[i] == rest[i - 1];
      if Spells(needle, hay, q, t, at) {
        forall i, j | 0 <= i < j < |at| ensures at[i] < at[j] {
          assert at[j] == rest[j - 1];
        }
        forall i | 0 <= i < |at| ensures t <= at[i] < |hay| && hay[at[i]] == needle[q + i] {
          if i > 0 {
            assert needle[q + 1 + (i - 1)] == hay[rest[i - 1]];
          }
        }
      } else if && q + |at| == |needle|
                && (forall i, j :: 0 <= i < j < |at| ==> at[i] < at[j])
                && (forall i :: 0 <= i < |at| ==> t <= at[i] < |hay| && hay[at[i]] == needle[q + i]) {
        assert t <= at[0] < |hay| && hay[at[0]] == needle[q + 0];
        forall i | 0 <= i < |rest| ensures at[0] + 1 <= rest[i] < |hay| && hay[rest[i]] == needle[q + 1 + i] {
          assert at[0] < at[i + 1] && hay[at[i + 1]] == needle[q + (i + 1)];
        }
        assert false;
      }
    }
  }

  lemma {:induction false} SpellsFits(needle: string, hay: string, q: nat, t: nat, at: seq<nat>)
    requires Spells(needle, hay, q, t, at)
    ensures Within(at, |hay|) && |at| == |needle| - q
    ensures t <= |hay| ==> |at| <= |hay| - t
    decreases |at|
  {
    if at != [] {
      SpellsFits(needle, hay, q + 1, at[0] + 1, at[1..]);
      assert forall i :: 0 < i < |at| ==> at[i] == at[1..][i - 1];
    }
  }

  lemma ScoreCons(bonus: seq<nat>, t: nat, rest: seq<nat>)
    requires t < |bonus| && Within(rest, |bonus|)
    ensures Within([t] + rest, |bonus|)
    ensures Score(bonus, t, [t] + rest)
            == CHARACTER_SCORE + bonus[t] + (if rest != [] && rest[0] == t + 1 then CONSECUTIVE_BONUS else 0) + Score(bonus, t + 1, rest)
  {
    assert ([t] + rest)[1..] == rest;
  }

  lemma ScoreSkip(bonus: seq<nat>, t: nat, at: seq<nat>)
    requires Within(at, |bonus|) && at != []
    ensures Score(bonus, t, at) == Score(bonus, t + 1, at) - SKIP_PENALTY
  {
  }

  /** `r` is a placement from there on, worth its closed-form score. */
  predicate Honest(needle: string, hay: string, bonus: seq<nat>, q: nat, t: nat, r: Option<Match>) {
    r.Some? ==>
      && Spells(needle, hay, q, t, r.value.indices)
      && Within(r.value.indices, |bonus|)
      && r.value.score == Score(bonus, t, r.value.indices)
  }

  lemma TakenIsHonest(needle: string, hay: string, bonus: seq<nat>, q: nat, t: nat)
    requires |bonus| == |hay| && q < |needle| && t < |hay|
    requires Honest(needle, hay, bonus, q + 1, t + 1, Search(needle, hay, bonus, q + 1, t + 1))
    ensures Honest(needle, hay, bonus, q, t, Taken(needle, hay, bonus, q, t))
  {
    if hay[t] == needle[q] && Search(needle, hay, bonus, q + 1, t + 1).Some? {
      var rest := Search(needle, hay, bonus, q + 1, t + 1).value.indices;
      assert ([t] + rest)[1..] == rest;
      ScoreCons(bonus, t, rest);
    }
  }

  lemma SkippingIsHonest(needle: string, hay: string, bonus: seq<nat>, q: nat, t: nat, r: Option<Match>)
    requires q < |needle| && Honest(needle, hay, bonus, q, t + 1, r)
    ensures Honest(needle, hay, bonus, q, t, Penalised(r))
  {
    if r.Some? {
      ScoreSkip(bonus, t, r.value.indices);
    }
  }

  /** Whatever the search returns is a placement of the query, and its score is the closed form of
      that placement: a point and a boundary bonus for each character, the bonus for each adjacency,
      less one for each character skipped up to the last match. */
  lemma {:induction false} FoundIsAPlacement(needle: string, hay: string, bonus: seq<nat>, q: nat, t: nat)
    requires |bonus| == |hay| && q <= |needle| && t <= |hay|
    ensures Honest(needle, hay, bonus, q, t, Search(needle, hay, bonus, q, t))
    decreases |hay| - t
  {
    if q < |needle| && t < |hay| && |needle| - q <= |hay| - t {
      FoundIsAPlacement(needle, hay, bonus, q, t + 1);
      SkippingIsHonest(needle, hay, bonus, q, t, Search(needle, hay, bonus, q, t + 1));
      FoundIsAPlacement(needle, hay, bonus, q + 1, t + 1);
      TakenIsHonest(needle, hay, bonus, q, t);
    }
  }

  // ---------------------------------------------------------------- membership, and how far from the best

  const GAP := CONSECUTIVE_BONUS - 1

  predicate WithinGap(bonus: seq<nat>, t: nat, at: seq<nat>, r: Option<Match>)
    requires Within(at, |bonus|)
  {
    r.Some? && r.value.score >= Score(bonus, t, at) - GAP * (|at| - 1)
  }

  /** An answer that starts right at `t` is the taken one, and one that does not beats it strictly. */
  lemma FirstIndexOfSearch(needle: string, hay: string, bonus: seq<nat>, q: nat, t: nat)
    requires |bonus| == |hay| && q < |needle| && t < |hay| && |needle| - q <= |hay| - t
    requires Taken(needle, hay, bonus, q, t).Some?
    ensures var r, taken := Search(needle, hay, bonus, q, t), Taken(needle, hay, bonus, q, t);
            && r.Some? && r.value.indices != []
            && (if r.value.indices[0] == t then r == taken else r.value.score > taken.value.score)
  {
    FoundIsAPlacement(needle, hay, bonus, q, t + 1);
  }

  /** A character put on `t` costs at most the gap more than its rest: it loses the adjacency bonus
      only where the rest's own answer starts elsewhere, and there that answer is better by one. */
  lemma TakenNearBest(needle: string, hay: string, bonus: seq<nat>, q: nat, t: nat, at: seq<nat>)
    requires |bonus| == |hay| && q < |needle| && t < |hay| && Spells(needle, hay, q, t, at) && at[0] == t
    requires Within(at, |bonus|) && Within(at[1..], |bonus|)
    requires |at| > 1 ==> WithinGap(bonus, t + 1, at[1..], Search(needle, hay, bonus, q + 1, t + 1))
    requires |at| > 1 && at[1] == t + 1 ==>
               && q + 1 < |needle| && t + 1 < |hay|
               && WithinGap(bonus, t + 1, at[1..], Taken(needle, hay, bonus, q + 1, t + 1))
    ensures WithinGap(bonus, t, at, Taken(needle, hay, bonus, q, t))
  {
    var rest := at[1..];
    assert at == [t] + rest;
    ScoreCons(bonus, t, rest);
    if |at| > 1 && at[1] == t + 1 {
      SpellsFits(needle, hay, q + 1, t + 1, rest);
      FirstIndexOfSearch(needle, hay, bonus, q + 1, t + 1);
    }
  }

  /** The search finds something for every placeable query, and what it finds is worth no less than
      any placement less 11 for each character after the first. */
  lemma {:induction false} NearBest(needle: string, hay: string, bonus: seq<nat>, q: nat, t: nat, at: seq<nat>)
    requires |bonus| == |hay| && q < |needle| && t <= |hay| && Spells(needle, hay, q, t, at)
    ensures Within(at, |bonus|) && WithinGap(bonus, t, at, Search(needle, hay, bonus, q, t))
    ensures at[0] == t ==> WithinGap(bonus, t, at, Taken(needle, hay, bonus, q, t))
    decreases |hay| - t
  {
    SpellsFits(needle, hay, q, t, at);
    if at[0] > t {
      NearBest(needle, hay, bonus, q, t + 1, at);
      ScoreSkip(bonus, t, at);
    } else {
      SpellsFits(needle, hay, q + 1, t + 1, at[1..]);
      if |at| > 1 {
        NearBest(needle, hay, bonus, q + 1, t + 1, at[1..]);
      }
      TakenNearBest(needle, hay, bonus, q, t, at);
    }
  }

  /** `at` picks ascending positions of the target that spell the query. */
  predicate Matches(needle: string, hay: string, at: seq<nat>) {
    && |at| == |needle|
    && (forall i, j :: 0 <= i < j < |at| ==> at[i] < at[j])
    && (forall i :: 0 <= i < |at| ==> at[i] < |hay| && hay[at[i]] == needle[i])
  }

  lemma MatchesIsSpells(needle: string, hay: string, at: seq<nat>)
    ensures Matches(needle, hay, at) <==> Spells(needle, hay, 0, 0, at)
    ensures Matches(needle, hay, at) ==> Within(at, |hay|) && |needle| <= |hay|
  {
    SpellsMeans(needle, hay, 0, 0, at);
    if Spells(needle, hay, 0, 0, at) {
      SpellsFits(needle, hay, 0, 0, at);
    }
  }

  /** For a query with something in it, no match is reported exactly when the target is too long to
      look at or does not contain the query as a subsequence. */
  lemma MatchedIffSubsequence(query: string, target: string, cases: CaseMap)
    requires Trim(query) != []
    ensures FuzzyMatch(query, target, cases).Some? <==>
            && |target| <= 240
            && exists at :: Matches(Lowered(Trim(query), cases), Lowered(target, cases), at)
  {
    var needle, hay, bonus := Lowered(Trim(query), cases), Lowered(target, cases), Bonuses(target, cases);
    forall at | Matches(needle, hay, at)
      ensures |needle| <= |hay| && Search(needle, hay, bonus, 0, 0).Some?
    {
      MatchesIsSpells(needle, hay, at);
      NearBest(needle, hay, bonus, 0, 0, at);
    }
    FoundIsAPlacement(needle, hay, bonus, 0, 0);
    var found := Search(needle, hay, bonus, 0, 0);
    if found.Some? {
      MatchesIsSpells(needle, hay, found.value.indices);
    }
  }

  /** What is reported is a placement with its closed-form score, and no placement scores more than
      11 for each character after the first above it. */
  lemma MatchIsNearBest(query: string, target: string, cases: CaseMap)
    requires Trim(query) != [] && FuzzyMatch(query, target, cases).Some?
    ensures var needle, hay, bonus, m :=
              Lowered(Trim(query), cases), Lowered(target, cases), Bonuses(target, cases), FuzzyMatch(query, target, cases).value;
            && Matches(needle, hay, m.indices) && Within(m.indices, |bonus|)
            && m.score == Score(bonus, 0, m.indices)
            && forall at :: Matches(needle, hay, at) ==>
                 Within(at, |bonus|) && Score(bonus, 0, at) <= m.score + GAP * (|needle| - 1)
  {
    var needle, hay, bonus := Lowered(Trim(query), cases), Lowered(target, cases), Bonuses(target, cases);
    FoundIsAPlacement(needle, hay, bonus, 0, 0);
    MatchesIsSpells(needle, hay, Search(needle, hay, bonus, 0, 0).value.indices);
    forall at | Matches(needle, hay, at)
      ensures Within(at, |bonus|) && Score(bonus, 0, at) <= Search(needle, hay, bonus, 0, 0).value.score + GAP * (|needle| - 1)
    {
      MatchesIsSpells(needle, hay, at);
      NearBest(needle, hay, bonus, 0, 0, at);
    }
  }

  // ---------------------------------------------------------------- the gap is real

  /** Letters of the alphabet fold; nothing else does. */
  function Ascii(): CaseMap {
    CaseMap((c: char) => if 'A' <= c <= 'Z' then ((c as int) + 32) as char else c,
            (c: char) => if 'a' <= c <= 'z' then ((c as int) - 32) as char else c)
  }

  /** Running up to the next candidate costs one a character. */
  lemma {:induction false} RunsUp(needle: string, hay: string, bonus: seq<nat>, q: nat, t: nat, next: nat)
    requires |bonus| == |hay| && q < |needle| && t <= next <= |hay|
    requires forall i :: t <= i < next ==> hay[i] != needle[q]
    requires Search(needle, hay, bonus, q, next).Some?
    ensures Search(needle, hay, bonus, q, t)
            == Some(Match(Search(needle, hay, bonus, q, next).value.score - (next - t),
                          Search(needle, hay, bonus, q, next).value.indices))
    decreases next - t
  {
    if t < next {
      RunsUp(needle, hay, bonus, q, t + 1, next);
      FoundIsAPlacement(needle, hay, bonus, q, next);
      SpellsFits(needle, hay, q, next, Search(needle, hay, bonus, q, next).value.indices);
    }
  }

  lemma {:induction false} NoneWithout(needle: string, hay: string, bonus: seq<nat>, q: nat, t: nat)
    requires |bonus| == |hay| && q < |needle| && t <= |hay|
    requires forall i :: t <= i < |hay| ==> hay[i] != needle[q]
    ensures Search(needle, hay, bonus, q, t) == None
    decreases |hay| - t
  {
    if t < |hay| {
      NoneWithout(needle, hay, bonus, q, t + 1);
    }
  }

  lemma Candidate(needle: string, hay: string, bonus: seq<nat>, q: nat, t: nat, rest: Match, skipped: Option<Match>)
    requires |bonus| == |hay| && q < |needle| && t < |hay| && |needle| - q <= |hay| - t && hay[t] == needle[q]
    requires Search(needle, hay, bonus, q + 1, t + 1) == Some(rest) && Search(needle, hay, bonus, q, t + 1) == skipped
    ensures Search(needle, hay, bonus, q, t) == Better(Some(Consumed(bonus[t], t, rest)), Penalised(skipped))
  {
  }

  lemma SearchInTwoWords(n: string, h: string, b: seq<nat>)
    requires n == "abc" && h == "abc bc" && b == [18, 0, 0, 0, 14, 0]
    ensures Search(n, h, b, 0, 0) == Some(Match(44, [0, 4, 5]))
  {
    Candidate(n, h, b, 2, 5, Match(0, []), None);
    assert [5 as nat] + [] == [5];
    RunsUp(n, h, b, 2, 3, 5);
    Candidate(n, h, b, 2, 2, Match(0, []), Some(Match(-1, [5])));
    assert [2 as nat] + [] == [2];
    Candidate(n, h, b, 1, 4, Match(1, [5]), None);
    assert [4 as nat] + [5] == [4, 5];
    RunsUp(n, h, b, 1, 2, 4);
    Candidate(n, h, b, 1, 1, Match(1, [2]), Some(Match(26, [4, 5])));
    NoneWithout(n, h, b, 0, 1);
    assert [0 as nat] + [4, 5] == [0, 4, 5];
    Candidate(n, h, b, 0, 0, Match(25, [4, 5]), None);
  }

  lemma SearchInCamelCase(n: string, h: string, b: seq<nat>)
    requires n == "ab" && h == "abxxxxxxxxb" && b == [18, 0, 0, 0, 0, 0, 0, 0, 0, 0, 10]
    ensures Search(n, h, b, 0, 0) == Some(Match(21, [0, 10]))
  {
    Candidate(n, h, b, 1, 10, Match(0, []), None);
    assert [10 as nat] + [] == [10];
    RunsUp(n, h, b, 1, 2, 10);
    Candidate(n, h, b, 1, 1, Match(0, []), Some(Match(3, [10])));
    NoneWithout(n, h, b, 0, 1);
    Candidate(n, h, b, 0, 0, Match(2, [10]), None);
    assert [0 as nat] + [10] == [0, 10];
  }

  /** What a query without upper case or white space at its ends is searched as. */
  lemma Folded(query: string, target: string, needle: string, hay: string)
    requires query == needle && query != [] && !IsSpace(query[0]) && !IsSpace(query[|query| - 1])
    requires |query| <= |target| <= MAX_TARGET_LENGTH && |hay| == |target|
    requires forall i :: 0 <= i < |needle| ==> !('A' <= needle[i] <= 'Z')
    requires forall i :: 0 <= i < |hay| ==> hay[i] == Ascii().lower(target[i])
    ensures Lowered(Trim(query), Ascii()) == needle && Lowered(target, Ascii()) == hay
    ensures FuzzyMatch(query, target, Ascii()) == Search(needle, hay, Bonuses(target, Ascii()), 0, 0)
  {
    TrimOfTrimmed(query);
    assert Lowered(query, Ascii()) == needle;
    assert Lowered(target, Ascii()) == hay;
  }

  lemma BonusesOfTwoWords(target: string)
    requires target == "abc bc"
    ensures Bonuses(target, Ascii()) == [18, 0, 0, 0, 14, 0]
  {
    assert ' ' in SEPARATORS by {
      assert SEPARATORS[0] == ' ';
    }
    assert 'a' !in SEPARATORS && 'b' !in SEPARATORS && 'c' !in SEPARATORS;
    assert !IsUpper('a', Ascii()) && !IsUpper('b', Ascii()) && !IsUpper('c', Ascii()) && !IsUpper(' ', Ascii());
  }

  lemma BonusesOfCamelCase(target: string)
    requires target == "abxxxxxxxxB"
    ensures Bonuses(target, Ascii()) == [18, 0, 0, 0, 0, 0, 0, 0, 0, 0, 10]
  {
    assert 'a' !in SEPARATORS && 'b' !in SEPARATORS && 'x' !in SEPARATORS;
    assert !IsUpper('a', Ascii()) && !IsUpper('b', Ascii()) && !IsUpper('x', Ascii()) && IsUpper('B', Ascii());
  }

  /** The documentation promises the best-scoring match. `abc` against `abc bc` is answered with the
      letters at 0, 4 and 5 for 44, although 0, 1 and 2 score 45. */
  lemma NotAlwaysTheBest(query: string, target: string)
    requires query == "abc" && target == "abc bc"
    ensures FuzzyMatch(query, target, Ascii()) == Some(Match(44, [0, 4, 5]))
    ensures Matches(Lowered(Trim(query), Ascii()), Lowered(target, Ascii()), [0, 1, 2])
    ensures Score(Bonuses(target, Ascii()), 0, [0, 1, 2]) == 45
  {
    var b := Bonuses(target, Ascii());
    BonusesOfTwoWords(target);
    Folded(query, target, query, target);
    SearchInTwoWords(query, target, b);
    ScoreOfThree(b);
  }

  lemma ScoreOfThree(b: seq<nat>)
    requires b == [18, 0, 0, 0, 14, 0]
    ensures Within([0, 1, 2], |b|) && Score(b, 0, [0, 1, 2]) == 45
  {
    var at: seq<nat> := [0, 1, 2];
    assert at[1..] == [1, 2] && at[1..][1..] == [2] && at[1..][1..][1..] == [];
    assert CharacterScores(b, at[1..][1..]) == 1;
    assert CharacterScores(b, at[1..]) == 2;
  }

  /** The bound of 11 is attained by a query of two letters. */
  lemma GapIsAttained(query: string, target: string, hay: string)
    requires query == "ab" && target == "abxxxxxxxxB" && hay == "abxxxxxxxxb"
    ensures FuzzyMatch(query, target, Ascii()) == Some(Match(21, [0, 10]))
    ensures Lowered(Trim(query), Ascii()) == query && Lowered(target, Ascii()) == hay && Matches(query, hay, [0, 1])
    ensures Score(Bonuses(target, Ascii()), 0, [0, 1]) == 21 + GAP
  {
    var b := Bonuses(target, Ascii());
    BonusesOfCamelCase(target);
    Folded(query, target, query, hay);
    SearchInCamelCase(query, hay, b);
    ScoreOfTwo(b);
  }

  lemma ScoreOfTwo(b: seq<nat>)
    requires |b| > 1 && b[0] == 18 && b[1] == 0
    ensures Within([0, 1], |b|) && Score(b, 0, [0, 1]) == 32
  {
    var at: seq<nat> := [0, 1];
    assert at[1..] == [1] && at[1..][1..] == [];
    assert CharacterScores(b, at[1..]) == 1;
  }
}
