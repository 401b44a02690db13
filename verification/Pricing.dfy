/** Turning a decision into the signed delta a vault settles: backend/src/scheduler/pricing.ts. */
module Pricing {
  import opened Arithmetic
  import opened Weights

  datatype Input = Input(
    managed: int,
    previous: Record<int>,
    target: Record<int>,
    previousPrices: map<string, int>,
    currentPrices: map<string, int>,
    feeBps: int)

  datatype LegPnl = LegPnl(symbol: string, weightBps: int, priceFrom: int, priceTo: int, pnl: int)

  datatype PlannedTrade =
    PlannedTrade(symbol: string, buy: bool, deltaBps: int, notional: int, quantity: int, price: int, pnl: int)

  datatype Priced = Priced(
    marketPnl: int,
    legs: seq<LegPnl>,
    assetsAfterMarket: int,
    turnoverBps: int,
    fee: int,
    netPnl: int,
    trades: seq<PlannedTrade>)

  // ---------------------------------------------------------------- what a decision is worth

  /** Both ends of the interval are quoted. Without them there is no move to measure. */
  predicate Measured(input: Input, leg: (string, int)) {
    && leg.1 != 0
    && leg.0 in input.previousPrices && leg.0 in input.currentPrices
    && input.previousPrices[leg.0] > 0
  }

  function Leg(input: Input, leg: (string, int)): LegPnl
    requires Measured(input, leg)
  {
    var from, to := input.previousPrices[leg.0], input.currentPrices[leg.0];
    LegPnl(leg.0, leg.1, from, to, TruncDiv(input.managed * leg.1 * (to - from), BPS * from))
  }

  function Legs(input: Input, held: Record<int>): seq<LegPnl> {
    if held == [] then []
    else
      var last := held[|held| - 1];
      Legs(input, held[..|held| - 1]) + if Measured(input, last) then [Leg(input, last)] else []
  }

  function Earned(legs: seq<LegPnl>): int {
    if legs == [] then 0 else Earned(legs[..|legs| - 1]) + legs[|legs| - 1].pnl
  }

  function PnlOf(legs: seq<LegPnl>, symbol: string): int {
    if legs == [] then 0
    else if legs[|legs| - 1].symbol == symbol then legs[|legs| - 1].pnl
    else PnlOf(legs[..|legs| - 1], symbol)
  }

  function DeltaBps(input: Input, symbol: string): int {
    WeightOf(input.target, symbol) - WeightOf(input.previous, symbol)
  }

  function Turnover(input: Input, symbols: seq<string>): int {
    if symbols == [] then 0
    else Turnover(input, symbols[..|symbols| - 1]) + Abs(DeltaBps(input, symbols[|symbols| - 1]))
  }

  predicate Traded(input: Input, symbol: string) {
    DeltaBps(input, symbol) != 0 && symbol in input.currentPrices && input.currentPrices[symbol] > 0
  }

  function Trade(input: Input, chargeable: int, legs: seq<LegPnl>, symbol: string): PlannedTrade
    requires Traded(input, symbol)
  {
    var delta, price := DeltaBps(input, symbol), input.currentPrices[symbol];
    var notional := TruncDiv(chargeable * Abs(delta), BPS);
    PlannedTrade(symbol, delta > 0, delta, notional, TruncDiv(notional * 1_000_000, price), price, PnlOf(legs, symbol))
  }

  function Trades(input: Input, chargeable: int, legs: seq<LegPnl>, symbols: seq<string>): seq<PlannedTrade> {
    if symbols == [] then []
    else
      var last := symbols[|symbols| - 1];
      Trades(input, chargeable, legs, symbols[..|symbols| - 1])
      + if Traded(input, last) then [Trade(input, chargeable, legs, last)] else []
  }

  // ---------------------------------------------------------------- the symbols, in order

  predicate Less(a: string, b: string) {
    b != [] && (a == [] || a[0] < b[0] || (a[0] == b[0] && Less(a[1..], b[1..])))
  }

  ghost predicate Ascending(s: seq<string>) {
    forall i, j :: 0 <= i < j < |s| ==> Less(s[i], s[j])
  }

  function Insert(s: seq<string>, x: string): seq<string> {
    if s == [] then [x]
    else if x == s[0] then s
    else if Less(x, s[0]) then [x] + s
    else [s[0]] + Insert(s[1..], x)
  }

  /** `[...new Set(keys)].sort()`, one key at a time. */
  function SortedKeys(r: Record<int>, sorted: seq<string>): seq<string> {
    if r == [] then sorted else SortedKeys(r[1..], Insert(sorted, r[0].0))
  }

  function Symbols(input: Input): seq<string> {
    SortedKeys(input.target, SortedKeys(input.previous, []))
  }

  /** The order of a dictionary: by the first character that differs, a word before its extensions. */
  ghost predicate BeforeAt(a: string, b: string, k: nat) {
    k <= |a| && k < |b| && a[..k] == b[..k] && (k < |a| ==> a[k] < b[k])
  }

  lemma {:induction false} LessIsDictionary(a: string, b: string)
    ensures Less(a, b) <==> exists k: nat :: BeforeAt(a, b, k)
    decreases |a|
  {
    if a != [] && b != [] && a[0] == b[0] {
      LessIsDictionary(a[1..], b[1..]);
      if Less(a, b) {
        var k: nat :| BeforeAt(a[1..], b[1..], k);
        assert a[..k + 1] == [a[0]] + a[1..][..k] && b[..k + 1] == [b[0]] + b[1..][..k];
        assert BeforeAt(a, b, k + 1);
      }
      if k: nat :| BeforeAt(a, b, k) {
        assert k > 0;
        assert a[1..][..k - 1] == a[..k][1..] && b[1..][..k - 1] == b[..k][1..];
        assert BeforeAt(a[1..], b[1..], k - 1);
      }
    } else if Less(a, b) {
      assert BeforeAt(a, b, 0);
    } else {
      forall k: nat ensures !BeforeAt(a, b, k) {
        if 0 < k <= |a| && k < |b| {
          assert a[..k][0] == a[0] && b[..k][0] == b[0];
        }
      }
    }
  }

  lemma {:induction false} LessIsTotal(a: string, b: string)
    ensures !Less(a, a)
    ensures a != b ==> Less(a, b) != Less(b, a)
  {
    if a != [] {
      LessIsTotal(a[1..], if b == [] then [] else b[1..]);
      if b != [] && a[0] == b[0] {
        assert a == [a[0]] + a[1..] && b == [b[0]] + b[1..];
      }
    }
  }

  lemma {:induction false} LessIsTransitive(a: string, b: string, c: string)
    requires Less(a, b) && Less(b, c)
    ensures Less(a, c)
  {
    if a != [] && a[0] == b[0] && b[0] == c[0] {
      LessIsTransitive(a[1..], b[1..], c[1..]);
    }
  }

  lemma {:induction false} InsertSorts(s: seq<string>, x: string)
    requires Ascending(s)
    ensures Ascending(Insert(s, x))
    ensures forall y :: y in Insert(s, x) <==> y == x || y in s
  {
    if s != [] {
      LessIsTotal(x, s[0]);
      InsertSorts(s[1..], x);
      var t := Insert(s, x);
      if x != s[0] && Less(x, s[0]) {
        forall j | 1 <= j < |t| ensures Less(x, t[j]) {
          if j > 1 { LessIsTransitive(x, s[0], t[j]); }
        }
      } else if x != s[0] {
        forall j | 1 <= j < |t| ensures Less(s[0], t[j]) {
          assert t[j] in Insert(s[1..], x);
        }
      }
    }
  }

  lemma {:induction false} SortedKeysSorts(r: Record<int>, sorted: seq<string>)
    requires Ascending(sorted)
    ensures Ascending(SortedKeys(r, sorted))
    ensures forall y :: y in SortedKeys(r, sorted) <==> HasKey(r, y) || y in sorted
    decreases |r|
  {
    if r != [] {
      InsertSorts(sorted, r[0].0);
      SortedKeysSorts(r[1..], Insert(sorted, r[0].0));
      assert r == [r[0]] + r[1..];
    }
  }

  /** The symbols a decision is priced over: each key of either record once, in ascending order. */
  lemma SymbolsAreTheKeys(input: Input)
    ensures Ascending(Symbols(input))
    ensures forall i, j :: 0 <= i < j < |Symbols(input)| ==> Symbols(input)[i] != Symbols(input)[j]
    ensures forall y :: y in Symbols(input) <==> HasKey(input.previous, y) || HasKey(input.target, y)
  {
    SortedKeysSorts(input.previous, []);
    SortedKeysSorts(input.target, SortedKeys(input.previous, []));
    forall i, j | 0 <= i < j < |Symbols(input)| ensures Symbols(input)[i] != Symbols(input)[j] {
      LessIsTotal(Symbols(input)[i], Symbols(input)[j]);
    }
  }

  // ---------------------------------------------------------------- the pricing pass

  function Price(input: Input): Priced {
    var legs := Legs(input, input.previous);
    var marketPnl := Earned(legs);
    var after := input.managed + marketPnl;
    var chargeable := if after > 0 then after else 0;
    var turnover := Turnover(input, Symbols(input));
    var fee := TruncDiv(chargeable * turnover * input.feeBps, BPS * BPS);
    Priced(marketPnl, legs, after, turnover, fee, marketPnl - fee,
           Trades(input, chargeable, legs, Symbols(input)))
  }

  method PriceDecision(input: Input) returns (priced: Priced)
    ensures priced == Price(input)
  {
    var legs, marketPnl := EarnInterval(input);
    var assetsAfterMarket := input.managed + marketPnl;
    var chargeable := if assetsAfterMarket > 0 then assetsAfterMarket else 0;
    var turnoverBps, trades := PlanTrades(input, chargeable, legs);
    var fee := TruncDiv(chargeable * turnoverBps * input.feeBps, BPS * BPS);
    priced := Priced(marketPnl, legs, assetsAfterMarket, turnoverBps, fee, marketPnl - fee, trades);
  }

  /** The first loop of the source: what the held weights earned. */
  method EarnInterval(input: Input) returns (legs: seq<LegPnl>, marketPnl: int)
    ensures legs == Legs(input, input.previous) && marketPnl == Earned(legs)
  {
    legs, marketPnl := [], 0;
    for i := 0 to |input.previous|
      invariant legs == Legs(input, input.previous[..i]) && marketPnl == Earned(legs)
    {
      assert input.previous[..i + 1][..i] == input.previous[..i];
      var (symbol, weightBps) := input.previous[i];
      if weightBps == 0 {
        continue;
      }
      if symbol !in input.previousPrices || symbol !in input.currentPrices || input.previousPrices[symbol] <= 0 {
        continue;
      }
      var priceFrom, priceTo := input.previousPrices[symbol], input.currentPrices[symbol];
      var pnl := TruncDiv(input.managed * weightBps * (priceTo - priceFrom), BPS * priceFrom);
      legs := legs + [LegPnl(symbol, weightBps, priceFrom, priceTo, pnl)];
      marketPnl := marketPnl + pnl;
    }
    assert input.previous[..|input.previous|] == input.previous;
  }

  /** The second loop: the trades that reach the new weights, and their turnover. */
  method PlanTrades(input: Input, chargeable: int, legs: seq<LegPnl>)
    returns (turnoverBps: int, trades: seq<PlannedTrade>)
    ensures turnoverBps == Turnover(input, Symbols(input))
    ensures trades == Trades(input, chargeable, legs, Symbols(input))
  {
    var symbols := Symbols(input);
    trades, turnoverBps := [], 0;
    for i := 0 to |symbols|
      invariant turnoverBps == Turnover(input, symbols[..i])
      invariant trades == Trades(input, chargeable, legs, symbols[..i])
    {
      assert symbols[..i + 1][..i] == symbols[..i];
      var symbol := symbols[i];
      var deltaBps := WeightOf(input.target, symbol) - WeightOf(input.previous, symbol);
      if deltaBps == 0 {
        continue;
      }
      turnoverBps := turnoverBps + Abs(deltaBps);
      if symbol !in input.currentPrices || input.currentPrices[symbol] <= 0 {
        continue;
      }
      var price := input.currentPrices[symbol];
      var notional := TruncDiv(chargeable * Abs(deltaBps), BPS);
      trades := trades + [PlannedTrade(symbol, deltaBps > 0, deltaBps, notional,
                                       TruncDiv(notional * 1_000_000, price), price, PnlOf(legs, symbol))];
    }
    assert symbols[..|symbols|] == symbols;
  }

  // ---------------------------------------------------------------- bounds

  /** What a tick hands over: weights out of `NormaliseWeights`, assets of a vault, real quotes. */
  ghost predicate ValidInput(input: Input) {
    && input.managed >= 0 && input.feeBps >= 0
    && ValidWeights(input.previous) && ValidWeights(input.target)
    && forall s <- input.currentPrices :: input.currentPrices[s] >= 0
  }

  /** A price falls by at most itself, so a leg loses at most what it was exposed to. */
  lemma LegLoss(exposure: int, from: int, to: int)
    requires exposure >= 0 && from > 0 && to >= 0
    ensures TruncDiv(exposure * (to - from), BPS * from) * BPS >= -exposure
  {
    var q := TruncDiv(exposure * (to - from), BPS * from);
    TruncDivBounds(exposure * (to - from), BPS * from);
    if to < from {
      MulMonotone(-from, to - from, exposure);
      assert q * (BPS * from) == q * BPS * from;
      MulCancel(-exposure, q * BPS, from);
    } else {
      MulMonotone(0, to - from, exposure);
    }
  }

  lemma AddLoss(earned: int, pnl: int, managed: int, held: int, weight: int)
    requires earned * BPS >= -(managed * held) && pnl * BPS >= -(managed * weight)
    ensures (earned + pnl) * BPS >= -(managed * (held + weight))
  {
    Distribute(held, weight, managed);
  }

  lemma {:induction false} EarnedLoss(input: Input, held: Record<int>)
    requires ValidInput(input) && forall e <- held :: e.1 >= 0
    ensures Earned(Legs(input, held)) * BPS >= -(input.managed * Total(held))
  {
    if held != [] {
      var init, last := held[..|held| - 1], held[|held| - 1];
      EarnedLoss(input, init);
      assert last in held;
      var pnl := 0;
      if Measured(input, last) {
        MulMonotone(0, last.1, input.managed);
        LegLoss(input.managed * last.1, input.previousPrices[last.0], input.currentPrices[last.0]);
        var legs := Legs(input, held);
        assert legs[..|legs| - 1] == Legs(input, init);
        pnl := Leg(input, last).pnl;
      } else {
        assert Legs(input, held) == Legs(input, init);
        MulMonotone(0, last.1, input.managed);
      }
      AddLoss(Earned(Legs(input, init)), pnl, input.managed, Total(init), last.1);
    }
  }

  /** The market cannot take more than the book. */
  lemma MarketLossWithinManaged(input: Input)
    requires ValidInput(input)
    ensures Price(input).marketPnl >= -input.managed
  {
    EarnedLoss(input, input.previous);
    MulMonotone(Total(input.previous), BPS, input.managed);
    MulCancel(-input.managed, Price(input).marketPnl, BPS);
  }

  function SumOver(r: Record<int>, symbols: seq<string>): int {
    if symbols == [] then 0 else SumOver(r, symbols[..|symbols| - 1]) + WeightOf(r, symbols[|symbols| - 1])
  }

  lemma {:induction false} SumOverWithoutLast(r: Record<int>, symbols: seq<string>)
    requires r != [] && DistinctKeys(r) && r[|r| - 1].1 >= 0
    requires forall i, j :: 0 <= i < j < |symbols| ==> symbols[i] != symbols[j]
    ensures var last := r[|r| - 1];
            SumOver(r, symbols) == SumOver(r[..|r| - 1], symbols) + if last.0 in symbols then last.1 else 0
  {
    if symbols != [] {
      var init, s, last := symbols[..|symbols| - 1], symbols[|symbols| - 1], r[|r| - 1];
      SumOverWithoutLast(r, init);
      assert symbols == init + [s];
      if s == last.0 {
        AbsentWeight(r[..|r| - 1], s);
      }
    }
  }

  lemma {:induction false} SumOverWithinTotal(r: Record<int>, symbols: seq<string>)
    requires DistinctKeys(r) && forall e <- r :: e.1 >= 0
    requires forall i, j :: 0 <= i < j < |symbols| ==> symbols[i] != symbols[j]
    ensures SumOver(r, symbols) <= Total(r)
  {
    if r == [] {
      SumOverNothing(symbols);
    } else {
      assert r[|r| - 1] in r;
      SumOverWithoutLast(r, symbols);
      SumOverWithinTotal(r[..|r| - 1], symbols);
    }
  }

  lemma {:induction false} SumOverNothing(symbols: seq<string>)
    ensures SumOver([], symbols) == 0
  {
    if symbols != [] {
      SumOverNothing(symbols[..|symbols| - 1]);
    }
  }

  lemma {:induction false} WeightIsNonNegative(r: Record<int>, key: string)
    requires forall e <- r :: e.1 >= 0
    ensures WeightOf(r, key) >= 0
  {
    if r != [] {
      assert r[|r| - 1] in r;
      WeightIsNonNegative(r[..|r| - 1], key);
    }
  }

  lemma {:induction false} TurnoverWithinSums(input: Input, symbols: seq<string>)
    requires ValidInput(input)
    ensures 0 <= Turnover(input, symbols) <= SumOver(input.previous, symbols) + SumOver(input.target, symbols)
  {
    if symbols != [] {
      TurnoverWithinSums(input, symbols[..|symbols| - 1]);
      WeightIsNonNegative(input.previous, symbols[|symbols| - 1]);
      WeightIsNonNegative(input.target, symbols[|symbols| - 1]);
    }
  }

  /** At most a full rotation: everything sold and everything bought. */
  lemma TurnoverAtMostFullRotation(input: Input)
    requires ValidInput(input)
    ensures 0 <= Price(input).turnoverBps <= 2 * BPS
  {
    SymbolsAreTheKeys(input);
    TurnoverWithinSums(input, Symbols(input));
    SumOverWithinTotal(input.previous, Symbols(input));
    SumOverWithinTotal(input.target, Symbols(input));
  }

  /** The fee without rounding, in parts of BPS * BPS of a base unit. */
  function ExactFee(input: Input): int {
    var p := Price(input);
    p.assetsAfterMarket * p.turnoverBps * input.feeBps
  }

  /** The fee is rounded down, which is in the strategy's favour by less than one base unit: the
      settled delta is above the exact one exactly when the exact fee is not a whole number. */
  lemma FeeRoundsInTheStrategysFavour(input: Input)
    requires ValidInput(input)
    ensures var p, exact, unit := Price(input), ExactFee(input), BPS * BPS;
            && 0 <= p.fee * unit <= exact < (p.fee + 1) * unit
            && 0 <= p.netPnl * unit - (p.marketPnl * unit - exact) < unit
            && (p.netPnl * unit > p.marketPnl * unit - exact <==> exact % unit != 0)
  {
    MarketLossWithinManaged(input);
    TurnoverAtMostFullRotation(input);
    var p := Price(input);
    MulMonotone(0, p.turnoverBps, p.assetsAfterMarket);
    MulMonotone(0, p.assetsAfterMarket * p.turnoverBps, input.feeBps);
    TruncDivBounds(p.assetsAfterMarket * p.turnoverBps * input.feeBps, BPS * BPS);
    WholeIffNoRemainder(ExactFee(input), p.fee, BPS * BPS);
  }

  lemma WholeIffNoRemainder(exact: int, whole: int, unit: int)
    requires unit > 0 && whole * unit <= exact < (whole + 1) * unit
    ensures exact == whole * unit <==> exact % unit == 0
  {
    DivAtLeast(exact, unit, whole);
    DivAtMost(exact, unit, whole);
  }

  const MAX_SAFE_FEE_BPS := 5_000

  /** The loss of a tick never exceeds the book, as long as a full rotation costs at most the book. */
  lemma LossWithinManaged(input: Input)
    requires ValidInput(input) && input.feeBps <= MAX_SAFE_FEE_BPS
    ensures Price(input).netPnl >= -input.managed
  {
    FeeRoundsInTheStrategysFavour(input);
    MarketLossWithinManaged(input);
    TurnoverAtMostFullRotation(input);
    var p := Price(input);
    FeeWithinAssets(p.assetsAfterMarket, p.turnoverBps, input.feeBps, p.fee);
  }

  lemma FeeWithinAssets(assets: int, turnover: int, feeBps: int, fee: int)
    requires 0 <= assets && 0 <= turnover <= 2 * BPS && 0 <= feeBps <= MAX_SAFE_FEE_BPS
    requires fee * (BPS * BPS) <= assets * turnover * feeBps
    ensures fee <= assets
  {
    MulMonotone(0, turnover, assets);
    MulMonotone(feeBps, MAX_SAFE_FEE_BPS, assets * turnover);
    MulMonotone(turnover, 2 * BPS, assets);
  }

  // ---------------------------------------------------------------- rounding of the legs

  function ExactEarned(input: Input, held: Record<int>): real {
    if held == [] then 0.0
    else
      var last := held[|held| - 1];
      ExactEarned(input, held[..|held| - 1])
      + if !Measured(input, last) then 0.0
        else (input.managed * last.1 * (input.currentPrices[last.0] - input.previousPrices[last.0])) as real
             / (BPS * input.previousPrices[last.0]) as real
  }

  lemma ScaledWithinOne(x: real, b: real, y: real)
    requires b > 0.0 && y == x * b && -b < y < b
    ensures -1.0 < x < 1.0
  {
  }

  lemma RealQuotient(q: real, a: real, b: real)
    requires b > 0.0 && q * b - b < a < q * b + b
    ensures -1.0 < q - a / b < 1.0
  {
    var exact := a / b;
    ScaledWithinOne(q - exact, b, q * b - a);
  }

  lemma QuotientWithinOne(a: int, b: int)
    requires b > 0
    ensures -1.0 < TruncDiv(a, b) as real - a as real / b as real < 1.0
  {
    var q := TruncDiv(a, b);
    TruncDivBounds(a, b);
    var p := q * b;
    assert p - b < a < p + b;
    assert p as real == q as real * b as real;
    RealQuotient(q as real, a as real, b as real);
  }

  lemma {:induction false} LegsWithinOneEach(input: Input, held: Record<int>)
    ensures var n, diff := |Legs(input, held)| as real, Earned(Legs(input, held)) as real - ExactEarned(input, held);
            if Legs(input, held) == [] then diff == 0.0 else -n < diff < n
  {
    if held != [] {
      var init, last := held[..|held| - 1], held[|held| - 1];
      LegsWithinOneEach(input, init);
      if Measured(input, last) {
        var from, to := input.previousPrices[last.0], input.currentPrices[last.0];
        QuotientWithinOne(input.managed * last.1 * (to - from), BPS * from);
        var legs := Legs(input, held);
        assert legs[..|legs| - 1] == Legs(input, init);
      } else {
        assert Legs(input, held) == Legs(input, init);
      }
    }
  }

  /** Each leg is rounded on its own, so the sum is off by less than one base unit per leg. */
  lemma MarketPnlWithinOnePerLeg(input: Input)
    ensures var p := Price(input);
            var diff := p.marketPnl as real - ExactEarned(input, input.previous);
            if p.legs == [] then diff == 0.0 else -(|p.legs| as real) < diff < |p.legs| as real
  {
    LegsWithinOneEach(input, input.previous);
  }

  /** A move and its mirror image differ only in sign. */
  lemma MirroredMove(exposure: int, from: int, move: int)
    requires from > 0
    ensures TruncDiv(exposure * -move, BPS * from) == -TruncDiv(exposure * move, BPS * from)
  {
    Negated(exposure, move);
    TruncDivIsOdd(exposure * move, BPS * from);
  }

  // ---------------------------------------------------------------- the trades carry out the decision

  ghost predicate HasTrade(trades: seq<PlannedTrade>, symbol: string) {
    exists i :: 0 <= i < |trades| && trades[i].symbol == symbol
  }

  /** One trade per symbol in order, each the one its symbol calls for. */
  ghost predicate WellTraded(input: Input, chargeable: int, legs: seq<LegPnl>, trades: seq<PlannedTrade>) {
    && (forall i, j :: 0 <= i < j < |trades| ==> Less(trades[i].symbol, trades[j].symbol))
    && (forall i :: 0 <= i < |trades| ==>
          Traded(input, trades[i].symbol) && trades[i] == Trade(input, chargeable, legs, trades[i].symbol))
  }

  lemma {:induction false} TradesAreWell(input: Input, chargeable: int, legs: seq<LegPnl>, symbols: seq<string>)
    requires Ascending(symbols)
    ensures WellTraded(input, chargeable, legs, Trades(input, chargeable, legs, symbols))
    ensures forall y :: HasTrade(Trades(input, chargeable, legs, symbols), y) <==> y in symbols && Traded(input, y)
  {
    if symbols != [] {
      var front, last := symbols[..|symbols| - 1], symbols[|symbols| - 1];
      var before, trades := Trades(input, chargeable, legs, front), Trades(input, chargeable, legs, symbols);
      TradesAreWell(input, chargeable, legs, front);
      forall i | 0 <= i < |before| ensures Less(before[i].symbol, last) {
        assert HasTrade(before, before[i].symbol);
      }
      forall y ensures HasTrade(trades, y) <==> y in symbols && Traded(input, y) {
        assert y in symbols <==> y in front || y == last;
        if HasTrade(before, y) {
          var i :| 0 <= i < |before| && before[i].symbol == y;
          assert trades[i].symbol == y;
        }
        if y == last && Traded(input, last) {
          assert trades[|trades| - 1].symbol == last;
        }
        if HasTrade(trades, y) {
          var i :| 0 <= i < |trades| && trades[i].symbol == y;
          if i < |before| {
            assert before[i].symbol == y;
          }
        }
      }
    }
  }

  lemma {:induction false} LegsAreDistinct(input: Input, held: Record<int>)
    requires DistinctKeys(held)
    ensures forall j, k :: 0 <= j < k < |Legs(input, held)| ==> Legs(input, held)[j].symbol != Legs(input, held)[k].symbol
    ensures forall j :: 0 <= j < |Legs(input, held)| ==> HasKey(held, Legs(input, held)[j].symbol)
  {
    if held != [] {
      var front, last := held[..|held| - 1], held[|held| - 1];
      LegsAreDistinct(input, front);
      forall j | 0 <= j < |Legs(input, front)|
        ensures Legs(input, front)[j].symbol != last.0 && HasKey(held, Legs(input, front)[j].symbol)
      {
        var e :| e in front && e.0 == Legs(input, front)[j].symbol;
        var n :| 0 <= n < |front| && front[n] == e;
        assert held[n] == e;
      }
      assert last in held;
    }
  }

  lemma {:induction false} LegOfSymbol(legs: seq<LegPnl>, i: nat)
    requires i < |legs| && forall j, k :: 0 <= j < k < |legs| ==> legs[j].symbol != legs[k].symbol
    ensures PnlOf(legs, legs[i].symbol) == legs[i].pnl
    decreases |legs|
  {
    if i < |legs| - 1 {
      LegOfSymbol(legs[..|legs| - 1], i);
    }
  }

  lemma {:induction false} NoLegOfSymbol(legs: seq<LegPnl>, symbol: string)
    requires forall i :: 0 <= i < |legs| ==> legs[i].symbol != symbol
    ensures PnlOf(legs, symbol) == 0
  {
    if legs != [] {
      NoLegOfSymbol(legs[..|legs| - 1], symbol);
    }
  }

  /** What a leg says: a weight that is held and not zero, both of its prices, and what the move between
      them earned, rounded toward zero. */
  predicate LegSays(input: Input, held: Record<int>, leg: LegPnl) {
    && (leg.symbol, leg.weightBps) in held && leg.weightBps != 0
    && leg.symbol in input.previousPrices && leg.symbol in input.currentPrices
    && leg.priceFrom == input.previousPrices[leg.symbol] > 0 && leg.priceTo == input.currentPrices[leg.symbol]
    && leg.pnl == TruncDiv(input.managed * leg.weightBps * (leg.priceTo - leg.priceFrom), BPS * leg.priceFrom)
  }

  ghost predicate HasLeg(legs: seq<LegPnl>, symbol: string, weight: int) {
    exists leg <- legs :: leg.symbol == symbol && leg.weightBps == weight
  }

  /** The legs are the held weights that are not zero and have a price at both ends of the interval, and no
      others. */
  lemma {:induction false} LegsAreTheMoves(input: Input, held: Record<int>)
    ensures forall leg <- Legs(input, held) :: LegSays(input, held, leg)
    ensures forall e <- held :: HasLeg(Legs(input, held), e.0, e.1) <==>
              e.1 != 0 && e.0 in input.previousPrices && e.0 in input.currentPrices && input.previousPrices[e.0] > 0
  {
    if held != [] {
      var front, last := held[..|held| - 1], held[|held| - 1];
      LegsAreTheMoves(input, front);
      assert held == front + [last];
      var before, legs := Legs(input, front), Legs(input, held);
      forall leg <- legs ensures LegSays(input, held, leg) {
        assert leg in before ==> LegSays(input, front, leg);
      }
      forall e <- held | e.1 != 0 && e.0 in input.previousPrices && e.0 in input.currentPrices && input.previousPrices[e.0] > 0
        ensures HasLeg(legs, e.0, e.1)
      {
        if e in front {
          assert HasLeg(before, e.0, e.1);
          var leg :| leg in before && leg.symbol == e.0 && leg.weightBps == e.1;
          assert leg in legs;
        } else {
          assert Leg(input, last) in legs;
        }
      }
      forall e <- held | HasLeg(legs, e.0, e.1)
        ensures e.1 != 0 && e.0 in input.previousPrices && e.0 in input.currentPrices && input.previousPrices[e.0] > 0
      {
        var leg :| leg in legs && leg.symbol == e.0 && leg.weightBps == e.1;
        assert LegSays(input, held, leg);
      }
    }
  }

  /** A trade reports what its own symbol's leg earned, and nothing when the symbol had no leg. */
  lemma TradePnlIsItsLegs(input: Input, i: nat)
    requires DistinctKeys(input.previous) && i < |Price(input).trades|
    ensures var p := Price(input);
            && (forall k :: 0 <= k < |p.legs| && p.legs[k].symbol == p.trades[i].symbol ==> p.trades[i].pnl == p.legs[k].pnl)
            && ((forall k :: 0 <= k < |p.legs| ==> p.legs[k].symbol != p.trades[i].symbol) ==> p.trades[i].pnl == 0)
  {
    var p := Price(input);
    SymbolsAreTheKeys(input);
    TradesAreWell(input, if p.assetsAfterMarket > 0 then p.assetsAfterMarket else 0, p.legs, Symbols(input));
    LegsAreDistinct(input, input.previous);
    forall k | 0 <= k < |p.legs| && p.legs[k].symbol == p.trades[i].symbol ensures p.trades[i].pnl == p.legs[k].pnl {
      LegOfSymbol(p.legs, k);
    }
    if forall k :: 0 <= k < |p.legs| ==> p.legs[k].symbol != p.trades[i].symbol {
      NoLegOfSymbol(p.legs, p.trades[i].symbol);
    }
  }

  /** A symbol is traded exactly when its weight changed and it is quoted, once and in the order of
      the names; the trade takes the old weight to the new one, on the right side and at the current
      price, and its notional is the charged assets' share of the change, rounded down to a base unit. */
  lemma TradesCarryOutTheDecision(input: Input)
    ensures var p := Price(input);
            var charged := if p.assetsAfterMarket > 0 then p.assetsAfterMarket else 0;
            && (forall y :: HasTrade(p.trades, y) <==>
                  WeightOf(input.target, y) != WeightOf(input.previous, y) && y in input.currentPrices && input.currentPrices[y] > 0)
            && (forall i, j :: 0 <= i < j < |p.trades| ==> Less(p.trades[i].symbol, p.trades[j].symbol))
            && (forall i :: 0 <= i < |p.trades| ==>
                  var tr := p.trades[i];
                  && WeightOf(input.previous, tr.symbol) + tr.deltaBps == WeightOf(input.target, tr.symbol)
                  && (tr.buy <==> WeightOf(input.target, tr.symbol) > WeightOf(input.previous, tr.symbol))
                  && tr.symbol in input.currentPrices && tr.price == input.currentPrices[tr.symbol]
                  && tr.notional * BPS <= charged * Abs(tr.deltaBps) < tr.notional * BPS + BPS
                  && tr.quantity * tr.price <= tr.notional * 1_000_000 < tr.quantity * tr.price + tr.price)
  {
    var p := Price(input);
    var charged := if p.assetsAfterMarket > 0 then p.assetsAfterMarket else 0;
    SymbolsAreTheKeys(input);
    TradesAreWell(input, charged, p.legs, Symbols(input));
    forall y ensures HasTrade(p.trades, y) <==>
                       WeightOf(input.target, y) != WeightOf(input.previous, y) && y in input.currentPrices && input.currentPrices[y] > 0
    {
      if y !in Symbols(input) {
        AbsentWeight(input.previous, y);
        AbsentWeight(input.target, y);
      }
    }
    forall i | 0 <= i < |p.trades|
      ensures var tr := p.trades[i];
              && tr.notional * BPS <= charged * Abs(tr.deltaBps) < tr.notional * BPS + BPS
              && tr.quantity * tr.price <= tr.notional * 1_000_000 < tr.quantity * tr.price + tr.price
    {
      TradeRounds(input, charged, p.legs, p.trades[i].symbol);
    }
  }

  lemma TradeRounds(input: Input, charged: nat, legs: seq<LegPnl>, symbol: string)
    requires Traded(input, symbol)
    ensures var tr := Trade(input, charged, legs, symbol);
            && tr.notional * BPS <= charged * Abs(tr.deltaBps) < tr.notional * BPS + BPS
            && tr.quantity * tr.price <= tr.notional * 1_000_000 < tr.quantity * tr.price + tr.price
  {
    var delta, price := Abs(DeltaBps(input, symbol)), input.currentPrices[symbol];
    TruncDivOfNat(charged * delta, BPS);
    DivBounds(charged * delta, BPS);
    var notional := TruncDiv(charged * delta, BPS);
    TruncDivOfNat(notional * 1_000_000, price);
    DivBounds(notional * 1_000_000, price);
  }

  // ---------------------------------------------------------------- what is turned over is what is traded

  function SizesOf(trades: seq<PlannedTrade>): int {
    if trades == [] then 0 else SizesOf(trades[..|trades| - 1]) + Abs(trades[|trades| - 1].deltaBps)
  }

  function NetOf(trades: seq<PlannedTrade>): int {
    if trades == [] then 0 else NetOf(trades[..|trades| - 1]) + trades[|trades| - 1].deltaBps
  }

  /** Every symbol whose weight changed has a price to be traded at. */
  ghost predicate Quoted(input: Input) {
    forall y :: WeightOf(input.target, y) != WeightOf(input.previous, y) ==> y in input.currentPrices && input.currentPrices[y] > 0
  }

  lemma OneMoreTrade(trades: seq<PlannedTrade>, trade: PlannedTrade)
    ensures SizesOf(trades + [trade]) == SizesOf(trades) + Abs(trade.deltaBps)
    ensures NetOf(trades + [trade]) == NetOf(trades) + trade.deltaBps
  {
    assert (trades + [trade])[..|trades|] == trades;
  }

  lemma {:induction false} TurnoverOfTrades(input: Input, chargeable: int, legs: seq<LegPnl>, symbols: seq<string>)
    ensures var trades := Trades(input, chargeable, legs, symbols);
            && SizesOf(trades) <= Turnover(input, symbols)
            && (Quoted(input) ==> SizesOf(trades) == Turnover(input, symbols))
            && (Quoted(input) ==> NetOf(trades) == SumOver(input.target, symbols) - SumOver(input.previous, symbols))
  {
    if symbols != [] {
      var front, last := symbols[..|symbols| - 1], symbols[|symbols| - 1];
      TurnoverOfTrades(input, chargeable, legs, front);
      if Traded(input, last) {
        OneMoreTrade(Trades(input, chargeable, legs, front), Trade(input, chargeable, legs, last));
      } else {
        assert Trades(input, chargeable, legs, symbols) == Trades(input, chargeable, legs, front);
      }
    }
  }

  lemma {:induction false} SumOverIsTotal(r: Record<int>, symbols: seq<string>)
    requires DistinctKeys(r) && forall e <- r :: e.1 >= 0 && e.0 in symbols
    requires forall i, j :: 0 <= i < j < |symbols| ==> symbols[i] != symbols[j]
    ensures SumOver(r, symbols) == Total(r)
  {
    if r == [] {
      SumOverNothing(symbols);
    } else {
      assert r[|r| - 1] in r;
      SumOverWithoutLast(r, symbols);
      SumOverIsTotal(r[..|r| - 1], symbols);
    }
  }

  lemma {:induction false} SameTurnover(a: Input, b: Input, symbols: seq<string>)
    requires a.previous == b.previous && a.target == b.target
    ensures Turnover(a, symbols) == Turnover(b, symbols)
  {
    if symbols != [] {
      SameTurnover(a, b, symbols[..|symbols| - 1]);
    }
  }

  /** Turnover is the sizes of the trades, where every changed symbol can be traded, and never less. */
  lemma TurnoverIsWhatIsTraded(input: Input)
    ensures SizesOf(Price(input).trades) <= Price(input).turnoverBps
    ensures Quoted(input) ==> SizesOf(Price(input).trades) == Price(input).turnoverBps
  {
    var p := Price(input);
    TurnoverOfTrades(input, if p.assetsAfterMarket > 0 then p.assetsAfterMarket else 0, p.legs, Symbols(input));
  }

  /** A change is turned over whether or not it can be priced: the quotes make no difference. */
  lemma TurnoverIgnoresPrices(a: Input, b: Input)
    requires a.previous == b.previous && a.target == b.target
    ensures Price(a).turnoverBps == Price(b).turnoverBps
  {
    SameTurnover(a, b, Symbols(a));
  }

  /** The trades take the invested part of the book from its old total to its new one. */
  lemma TradesMoveTheTotal(input: Input)
    requires ValidInput(input) && Quoted(input)
    ensures NetOf(Price(input).trades) == Total(input.target) - Total(input.previous)
  {
    var p := Price(input);
    SymbolsAreTheKeys(input);
    TurnoverOfTrades(input, if p.assetsAfterMarket > 0 then p.assetsAfterMarket else 0, p.legs, Symbols(input));
    SumOverIsTotal(input.previous, Symbols(input));
    SumOverIsTotal(input.target, Symbols(input));
  }

  /** The fee is charged on what the market left, and on nothing where it left nothing. */
  lemma ChargedAfterTheMarket(input: Input)
    ensures var p := Price(input);
            && p.assetsAfterMarket == input.managed + p.marketPnl
            && p.netPnl == p.marketPnl - p.fee
            && (p.assetsAfterMarket <= 0 ==> p.fee == 0 && forall i :: 0 <= i < |p.trades| ==> p.trades[i].notional == 0)
  {
    var p := Price(input);
    if p.assetsAfterMarket <= 0 {
      assert 0 * p.turnoverBps * input.feeBps == 0;
      TruncDivOfNat(0, BPS * BPS);
      TradesCarryOutTheDecision(input);
    }
  }

  // ---------------------------------------------------------------- what the vault can settle

  datatype PnlClamp = Unclamped | ByReserve | ByManagedAssets

  datatype ClampedPnl = ClampedPnl(applied: int, clamped: PnlClamp)

  function ClampPnl(netPnl: int, reserve: int, managed: int): ClampedPnl {
    if netPnl > 0 && netPnl > reserve then ClampedPnl(reserve, ByReserve)
    else if netPnl < 0 && -netPnl > managed then ClampedPnl(-managed, ByManagedAssets)
    else ClampedPnl(netPnl, Unclamped)
  }

  /** Nobody holds shares, so there is nobody to settle for. */
  predicate Settles(totalShares: int) { totalShares != 0 }

  predicate Settleable(delta: int, reserve: nat, managed: nat) {
    delta <= reserve && -delta <= managed
  }

  /** Cutting to the vault's limits: the result is the value nearest to the computed delta that
      the vault can settle, and it is reported as cut exactly when it is not the computed one. */
  lemma ClampIsNearest(netPnl: int, reserve: nat, managed: nat)
    ensures var c := ClampPnl(netPnl, reserve, managed);
            && Settleable(c.applied, reserve, managed)
            && (forall x :: Settleable(x, reserve, managed) ==> Abs(netPnl - c.applied) <= Abs(netPnl - x))
            && (c.clamped == Unclamped <==> c.applied == netPnl)
  {
  }

  predicate Overdrawn(input: Input) {
    input.managed >= 0 && ClampPnl(Price(input).netPnl, 0, input.managed).clamped == ByManagedAssets
  }

  /** The whole book moves from one asset to another, and no move is measured. */
  function Rotation(managed: int, feeBps: int): Input {
    Input(managed, [("ETH", BPS)], [("BTC", BPS)], map[], map[], feeBps)
  }

  function FullRotation(feeBps: int): Input { Rotation(BPS * BPS, feeBps) }

  lemma WeightOfOnly(symbol: string, weight: int, other: string)
    requires symbol != other
    ensures WeightOf([(symbol, weight)], symbol) == weight && WeightOf([(symbol, weight)], other) == 0
  {
    var only := [(symbol, weight)];
    assert only[..0] == [] && WeightOf(only[..0], other) == 0;
  }

  lemma RotationTurnover(managed: nat, feeBps: nat)
    ensures var input := Rotation(managed, feeBps);
            && ValidInput(input) && Price(input).legs == [] && Price(input).marketPnl == 0
            && Price(input).assetsAfterMarket == managed && Price(input).turnoverBps == 2 * BPS
  {
    var input := Rotation(managed, feeBps);
    assert Total(input.previous) == BPS && Total(input.target) == BPS by {
      assert input.previous[..0] == [] && input.target[..0] == [];
    }
    assert Legs(input, input.previous) == [] by {
      assert input.previous[..0] == [];
    }
    var symbols := Symbols(input);
    assert symbols == ["BTC", "ETH"] by {
      assert SortedKeys(input.previous, []) == ["ETH"];
      assert Less("BTC", "ETH");
      assert SortedKeys(input.target, ["ETH"]) == SortedKeys([], Insert(["ETH"], "BTC"));
    }
    assert symbols[..1] == ["BTC"] && symbols[..1][..0] == [];
    assert "BTC"[0] != "ETH"[0];
    WeightOfOnly("ETH", BPS, "BTC");
    WeightOfOnly("BTC", BPS, "ETH");
    assert Turnover(input, symbols[..1]) == BPS;
    assert symbols[1] == "ETH" && Turnover(input, symbols) == 2 * BPS;
  }

  lemma FullRotationFee(feeBps: nat)
    ensures ValidInput(FullRotation(feeBps))
    ensures Price(FullRotation(feeBps)).netPnl == -(2 * BPS * feeBps)
  {
    RotationTurnover(BPS * BPS, feeBps);
    assert BPS * BPS * (2 * BPS) * feeBps == (2 * BPS * feeBps) * (BPS * BPS);
    DivAtLeast((2 * BPS * feeBps) * (BPS * BPS), BPS * BPS, 2 * BPS * feeBps);
    DivAtMost((2 * BPS * feeBps) * (BPS * BPS), BPS * BPS, 2 * BPS * feeBps);
  }

  /** A book of one dollar that is turned over whole at 30 bps owes 6000 base units exactly; one base
      unit less in the book and the fee is 5999, so that the strategy looks better than it was. */
  lemma FeeFlattersTheStrategy()
    ensures Price(Rotation(1_000_000, 30)).fee == 6000 && ExactFee(Rotation(1_000_000, 30)) == 6000 * (BPS * BPS)
    ensures var p, exact := Price(Rotation(999_999, 30)), ExactFee(Rotation(999_999, 30));
            p.fee == 5999 && p.netPnl * (BPS * BPS) > p.marketPnl * (BPS * BPS) - exact
  {
    RotationTurnover(1_000_000, 30);
    RotationTurnover(999_999, 30);
  }

  /** The managed-assets clamp is dead code exactly for the venue costs up to 5000 bps; the
      configuration allows twice that. */
  lemma ManagedAssetsClampUnreachable(feeBps: nat)
    ensures (forall input: Input :: ValidInput(input) && input.feeBps == feeBps ==> !Overdrawn(input))
            <==> feeBps <= MAX_SAFE_FEE_BPS
  {
    if feeBps <= MAX_SAFE_FEE_BPS {
      forall input: Input | ValidInput(input) && input.feeBps == feeBps ensures !Overdrawn(input) {
        LossWithinManaged(input);
      }
    } else {
      FullRotationFee(feeBps);
      assert Overdrawn(FullRotation(feeBps));
    }
  }
}
