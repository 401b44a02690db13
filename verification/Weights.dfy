/** The weights a strategy asks for, brought within its contract:
    chainlink/strategy-toolkit/src/context.ts, `normaliseWeights`. */
module Weights {
  import opened Arithmetic

  const BPS := 10_000

  /** A JavaScript number. A strategy is foreign code and may hand over any of these. */
  datatype Number = NotANumber | Infinite | Finite(value: real)

  /** An object with string keys, in the order `Object.entries` lists them. */
  type Record<V> = seq<(string, V)>

  ghost predicate DistinctKeys<V>(r: Record<V>) {
    forall i, j :: 0 <= i < j < |r| ==> r[i].0 != r[j].0
  }

  ghost predicate HasKey<V>(r: Record<V>, key: string) {
    exists e <- r :: e.0 == key
  }

  /** `r[key] ?? 0` */
  function WeightOf(r: Record<int>, key: string): int {
    if r == [] then 0 else if r[|r| - 1].0 == key then r[|r| - 1].1 else WeightOf(r[..|r| - 1], key)
  }

  function Total(r: Record<int>): int {
    if r == [] then 0 else Total(r[..|r| - 1]) + r[|r| - 1].1
  }

  /** `Math.round`: half rounds up. */
  function Round(x: real): int { (x + 0.5).Floor }

  function Clamped(raw: Number): nat {
    match raw
    case Finite(x) => if Round(x) < 0 then 0 else if Round(x) > BPS then BPS else Round(x)
    case _ => 0
  }

  predicate Unchanged(raw: Number) {
    raw == Finite(Clamped(raw) as real)
  }

  function Kept(target: Record<Number>, declared: set<string>): Record<int> {
    if target == [] then []
    else
      var rest, last := Kept(target[..|target| - 1], declared), target[|target| - 1];
      if last.0 in declared && Clamped(last.1) != 0 then rest + [(last.0, Clamped(last.1))] else rest
  }

  function Scaled(r: Record<int>, total: int): Record<int>
    requires total > 0
  {
    seq(|r|, i requires 0 <= i < |r| => (r[i].0, r[i].1 * BPS / total))
  }

  function Normalised(target: Record<Number>, declared: set<string>): Record<int> {
    var kept := Kept(target, declared);
    if Total(kept) > BPS then Scaled(kept, Total(kept)) else kept
  }

  /** A whole number of basis points between nothing and the whole book. */
  predicate WholeBps(raw: Number) {
    raw.Finite? && 0.0 <= raw.value <= 10_000.0 && raw.value == raw.value.Floor as real
  }

  function Asked(target: Record<Number>): int {
    if target == [] then 0
    else
      var last := target[|target| - 1].1;
      Asked(target[..|target| - 1]) + if last.Finite? then last.value.Floor else 0
  }

  /** What the contract asks of a decision: declared symbols, whole basis points, no oversubscription. */
  ghost predicate Conforming(target: Record<Number>, declared: set<string>) {
    && (forall e <- target :: e.0 in declared && WholeBps(e.1))
    && Asked(target) <= BPS
  }

  /** Weights a vault's book can hold. */
  ghost predicate ValidWeights(r: Record<int>) {
    && DistinctKeys(r)
    && (forall e <- r :: 0 <= e.1 <= BPS)
    && Total(r) <= BPS
  }

  /** The first pass: what is declared, rounded and clamped. */
  method KeepDeclared(target: Record<Number>, declared: set<string>) returns (weights: Record<int>, total: int, adjusted: bool)
    ensures weights == Kept(target, declared) && total == Total(weights)
    ensures adjusted <==> exists e <- target :: !(e.0 in declared && Unchanged(e.1))
  {
    weights, total, adjusted := [], 0, false;
    for i := 0 to |target|
      invariant weights == Kept(target[..i], declared) && total == Total(weights)
      invariant adjusted <==> exists e <- target[..i] :: !(e.0 in declared && Unchanged(e.1))
    {
      assert target[..i + 1] == target[..i] + [target[i]];
      var (symbol, raw) := target[i];
      if symbol !in declared {
        adjusted := true;
        continue;
      }
      var value := if raw.Finite? then Round(raw.value) else 0;
      var clamped := if value < 0 then 0 else if value > BPS then BPS else value;
      if raw != Finite(clamped as real) {
        adjusted := true;
      }
      if clamped == 0 {
        continue;
      }
      weights := weights + [(symbol, clamped)];
      total := total + clamped;
    }
    assert target[..|target|] == target;
  }

  /** The second pass, for a book that is oversubscribed. */
  method Rescale(kept: Record<int>, total: int) returns (weights: Record<int>)
    requires total > 0
    ensures weights == Scaled(kept, total)
  {
    weights := kept;
    for i := 0 to |weights|
      invariant |weights| == |kept|
      invariant forall j :: 0 <= j < |kept| ==> weights[j] == if j < i then Scaled(kept, total)[j] else kept[j]
    {
      weights := weights[i := (weights[i].0, weights[i].1 * BPS / total)];
    }
  }

  /** The correction in two passes, as the source makes it, and the flag that reports it. */
  method NormaliseWeights(target: Record<Number>, declared: set<string>) returns (weights: Record<int>, adjusted: bool)
    ensures weights == Normalised(target, declared)
    ensures adjusted <==> !Conforming(target, declared)
  {
    var total;
    weights, total, adjusted := KeepDeclared(target, declared);
    if total > BPS {
      adjusted := true;
      weights := Rescale(weights, total);
    }
    ConformsIff(target, declared);
  }

  /** The nearest whole number, halves up. */
  lemma RoundIsNearest(x: real)
    ensures x - 0.5 < Round(x) as real <= x + 0.5
  {
  }

  lemma RoundOfWhole(n: int)
    ensures Round(n as real) == n
  {
    RoundIsNearest(n as real);
  }

  /** Clamping gives the nearest whole basis point of the book, halves up, and nothing for what is no
      number. */
  lemma ClampedIsNearest(raw: Number)
    ensures 0 <= Clamped(raw) <= 10_000
    ensures raw.Finite? && 0.0 <= raw.value <= 10_000.0 ==> raw.value - 0.5 < Clamped(raw) as real <= raw.value + 0.5
    ensures (raw.Finite? ==> raw.value < 0.0) ==> Clamped(raw) == 0
    ensures raw.Finite? && raw.value > 10_000.0 ==> Clamped(raw) == 10_000
  {
    if raw.Finite? {
      RoundIsNearest(raw.value);
    }
  }

  /** It leaves exactly the whole basis points as they are. */
  lemma UnchangedIffWhole(raw: Number)
    ensures Unchanged(raw) <==> WholeBps(raw)
    ensures WholeBps(raw) ==> Clamped(raw) == raw.value.Floor
  {
    if WholeBps(raw) {
      RoundOfWhole(raw.value.Floor);
    }
  }

  lemma {:induction false} AskedIsKept(target: Record<Number>, declared: set<string>)
    requires forall e <- target :: e.0 in declared && WholeBps(e.1)
    ensures Asked(target) == Total(Kept(target, declared))
  {
    if target != [] {
      var init, last := target[..|target| - 1], target[|target| - 1];
      assert last in target && forall e <- init :: e in target;
      AskedIsKept(init, declared);
      UnchangedIffWhole(last.1);
      OneMoreKept(Kept(init, declared), last.0, Clamped(last.1));
    }
  }

  lemma OneMoreKept(r: Record<int>, key: string, weight: int)
    ensures Total(r + [(key, weight)]) == Total(r) + weight
  {
    assert (r + [(key, weight)])[..|r|] == r;
  }

  lemma ConformsIff(target: Record<Number>, declared: set<string>)
    ensures Conforming(target, declared) <==>
            (forall e <- target :: e.0 in declared && Unchanged(e.1)) && Total(Kept(target, declared)) <= BPS
  {
    forall e <- target ensures Unchanged(e.1) <==> WholeBps(e.1) {
      UnchangedIffWhole(e.1);
    }
    if forall e <- target :: e.0 in declared && WholeBps(e.1) {
      AskedIsKept(target, declared);
    }
  }

  lemma {:induction false} KeptIsPositive(target: Record<Number>, declared: set<string>)
    ensures forall e <- Kept(target, declared) :: e.0 in declared && 0 < e.1 <= BPS && HasKey(target, e.0)
    ensures DistinctKeys(target) ==> DistinctKeys(Kept(target, declared))
  {
    if target != [] {
      var init, last := target[..|target| - 1], target[|target| - 1];
      KeptIsPositive(init, declared);
      assert target == init + [last];
      forall e <- Kept(init, declared) ensures HasKey(target, e.0) {
        var f :| f in init && f.0 == e.0;
        assert f in target;
      }
      if DistinctKeys(target) {
        forall e <- Kept(init, declared) ensures e.0 != last.0 {
          var f :| f in init && f.0 == e.0;
        }
      }
    }
  }

  /** Sum of the rounded-down shares: at most the book, and short of it by less than one basis
      point for each asset. Multiplied out by the total. */
  lemma {:induction false} ScaledTotal(r: Record<int>, total: int)
    requires total > 0
    ensures Total(Scaled(r, total)) * total <= Total(r) * BPS
    ensures r != [] ==> Total(r) * BPS < (Total(Scaled(r, total)) + |r|) * total
  {
    if r != [] {
      var init, last := r[..|r| - 1], r[|r| - 1];
      assert Scaled(r, total)[..|r| - 1] == Scaled(init, total);
      ScaledTotal(init, total);
      DivBounds(last.1 * BPS, total);
      Distribute(Total(Scaled(init, total)), last.1 * BPS / total, total);
      Distribute(Total(Scaled(init, total)) + |init|, last.1 * BPS / total + 1, total);
      Distribute(last.1 * BPS / total, 1, total);
    }
  }

  lemma ScaledEntry(w: int, total: int)
    requires 0 <= w <= BPS && total > BPS
    ensures 0 <= w * BPS / total <= BPS
  {
    DivAtLeast(w * BPS, total, 0);
    DivAtMost(w * BPS, total, BPS);
  }

  lemma WithinBook(scaled: int, n: int, total: int)
    requires total > 0 && scaled * total <= total * BPS < (scaled + n) * total
    ensures scaled <= BPS < scaled + n
  {
    MulCancel(scaled, BPS, total);
    if scaled + n <= BPS {
      MulMonotone(scaled + n, BPS, total);
    }
  }

  lemma ScaledEntries(kept: Record<int>, total: int)
    requires DistinctKeys(kept) && total > BPS && forall e <- kept :: 0 <= e.1 <= BPS
    ensures DistinctKeys(Scaled(kept, total))
    ensures forall e <- Scaled(kept, total) :: 0 <= e.1 <= BPS && HasKey(kept, e.0)
  {
    var scaled := Scaled(kept, total);
    forall i | 0 <= i < |scaled| ensures 0 <= scaled[i].1 <= BPS && HasKey(kept, scaled[i].0) {
      assert kept[i] in kept;
      ScaledEntry(kept[i].1, total);
    }
  }

  lemma ScaledWithinBook(kept: Record<int>, total: int)
    requires total == Total(kept) > BPS
    ensures BPS - |kept| < Total(Scaled(kept, total)) <= BPS
  {
    ScaledTotal(kept, total);
    WithinBook(Total(Scaled(kept, total)), |kept|, total);
  }

  /** Whatever a strategy returns, the weights that reach the book name only declared assets, lie
      in 0..10000 each and sum to at most 10000; an oversubscribed book is cut by less than one
      basis point per asset more than it had to be. */
  lemma NormalisedIsValid(target: Record<Number>, declared: set<string>)
    requires DistinctKeys(target)
    ensures ValidWeights(Normalised(target, declared))
    ensures forall e <- Normalised(target, declared) :: e.0 in declared
    ensures Total(Kept(target, declared)) > BPS ==>
              Total(Normalised(target, declared)) > BPS - |Normalised(target, declared)|
  {
    var kept := Kept(target, declared);
    KeptIsPositive(target, declared);
    if Total(kept) > BPS {
      ScaledEntries(kept, Total(kept));
      ScaledWithinBook(kept, Total(kept));
    }
  }

  lemma {:induction false} KeptWeight(target: Record<Number>, declared: set<string>, i: nat)
    requires i < |target| && DistinctKeys(target) && target[i].0 in declared
    ensures WeightOf(Kept(target, declared), target[i].0) == Clamped(target[i].1)
  {
    var last := |target| - 1;
    var kept := Kept(target, declared);
    if i < last {
      KeptWeight(target[..last], declared, i);
      assert kept != Kept(target[..last], declared) ==> kept[..|kept| - 1] == Kept(target[..last], declared);
    } else if Clamped(target[i].1) == 0 {
      KeptIsPositive(target[..last], declared);
      AbsentWeight(kept, target[i].0);
    }
  }

  lemma {:induction false} AbsentWeight(r: Record<int>, key: string)
    requires !HasKey(r, key)
    ensures WeightOf(r, key) == 0
  {
    if r != [] {
      assert r[|r| - 1] in r;
      AbsentWeight(r[..|r| - 1], key);
    }
  }

  /** A decision that keeps the contract reaches the book as it was made. */
  lemma ConformingIsKept(target: Record<Number>, declared: set<string>, i: nat)
    requires DistinctKeys(target) && Conforming(target, declared) && i < |target|
    ensures target[i].1 == Finite(WeightOf(Normalised(target, declared), target[i].0) as real)
  {
    assert target[i] in target;
    KeptWeight(target, declared, i);
    ConformsIff(target, declared);
  }

  lemma {:induction false} ScaledWeight(r: Record<int>, total: int, key: string)
    requires total > 0
    ensures WeightOf(Scaled(r, total), key) == WeightOf(r, key) * BPS / total
  {
    if r != [] {
      var init := r[..|r| - 1];
      ScaledWeight(init, total, key);
      assert Scaled(r, total)[..|r| - 1] == Scaled(init, total);
    } else {
      DivOfNothing(total);
    }
  }

  lemma DivOfNothing(total: int)
    requires total > 0
    ensures 0 * BPS / total == 0
  {
  }

  /** Each symbol's own weight: what it was given, to the nearest whole basis point, as long as the book
      has room; in an oversubscribed book its share of the whole, rounded down; nothing for a symbol that
      was not declared. */
  lemma EachGetsItsShare(target: Record<Number>, declared: set<string>, i: nat)
    requires i < |target| && DistinctKeys(target)
    ensures var given, asked, got := target[i].1, Total(Kept(target, declared)), WeightOf(Normalised(target, declared), target[i].0);
            && (target[i].0 !in declared ==> got == 0)
            && (target[i].0 in declared && asked <= BPS ==> got == Clamped(given))
            && (target[i].0 in declared && asked > BPS ==> got * asked <= Clamped(given) * BPS < got * asked + asked)
  {
    var kept := Kept(target, declared);
    var asked := Total(kept);
    if target[i].0 in declared {
      KeptWeight(target, declared, i);
      if asked > BPS {
        ScaledWeight(kept, asked, target[i].0);
        DivBounds(Clamped(target[i].1) * BPS, asked);
      }
    } else {
      KeptIsPositive(target, declared);
      AbsentWeight(kept, target[i].0);
      if asked > BPS {
        ScaledWeight(kept, asked, target[i].0);
        DivOfNothing(asked);
      }
    }
  }
}
