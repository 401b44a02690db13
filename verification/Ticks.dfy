/** One tick from the vault reading to the settlement, and every run of ticks:
    backend/src/scheduler/tick.ts, steps 2 to 6, with backend/src/scheduler/state.ts. */
module Ticks {
  import opened Arithmetic
  import opened Collections
  import opened Vault
  import opened Weights
  import opened Pricing

  /** What the last settled tick held, and the prices it was measured against. */
  datatype TickState = TickState(weights: Record<int>, prices: map<string, int>)

  /** `cached` is the state file; `lastWeights` the newest successful execution row. */
  datatype World = World(vault: Ledger, cached: Option<TickState>, lastWeights: Record<int>)

  /** Everything around one tick that the tick does not choose: what investors did before it read
      the vault and between the reading and the settlement, the strategy's answer, the prices, which
      of the later writes failed, and how many trades had been reported when one did. */
  datatype TickInput = TickInput(
    before: seq<Action>,
    cacheLost: bool,
    declared: set<string>,
    decision: Record<Number>,
    prices: map<string, int>,
    feeBps: nat,
    during: seq<Action>,
    failsAfterSettling: bool,
    tradesReported: nat,
    stateWritten: bool)

  datatype Report = Report(read: Ledger, priced: Priced, clamp: ClampedPnl, settlement: Option<Outcome>, after: World)

  /** Without a state file the weights come from the last execution, and no move is measured. */
  function Previous(cached: Option<TickState>, lastWeights: Record<int>): TickState {
    if cached.Some? then cached.value else TickState(lastWeights, map[])
  }

  /** A vault read without depositors is left alone; any other is asked to settle. */
  function SettlementOf(supply: nat, arrived: Ledger, operator: Address, delta: int): Option<Outcome> {
    if Settles(supply) then Some(Apply(arrived, ApplyPnl(operator, delta))) else None
  }

  function Tick(w: World, t: TickInput): Report {
    var read := Run(w.vault, t.before);
    var cached := if t.cacheLost then None else w.cached;
    var previous := Previous(cached, w.lastWeights);
    var target := Normalised(t.decision, t.declared);
    var priced := Price(Input(read.managed, previous.weights, target, previous.prices, t.prices, t.feeBps));
    var clamp := ClampPnl(priced.netPnl, read.Reserve(), read.managed);
    var arrived := Run(read, t.during);
    var settlement := SettlementOf(read.supply, arrived, read.operator, clamp.applied);
    var settled := if settlement.Some? && settlement.value.Done? then settlement.value.after else arrived;
    var ok := !(settlement.Some? && settlement.value.Reverted?) && !t.failsAfterSettling;
    Report(read, priced, clamp, settlement,
           World(settled,
                 if ok && t.stateWritten then Some(TickState(target, t.prices)) else cached,
                 if ok then target else w.lastWeights))
  }

  function Reported(trade: PlannedTrade): TradeReport {
    TradeReport(trade.symbol + "/USDC", trade.buy, trade.notional, trade.price, trade.pnl)
  }

  function TradeEvents(trades: seq<PlannedTrade>): seq<Event> {
    seq(|trades|, i requires 0 <= i < |trades| => TradeRecordedEvent(Reported(trades[i])))
  }

  /** The trades that were reported to the vault before the tick ended. */
  function TradesSent(t: TickInput, trades: seq<PlannedTrade>): seq<PlannedTrade> {
    if t.failsAfterSettling && t.tradesReported < |trades| then trades[..t.tradesReported] else trades
  }

  /** What investors did around a tick. */
  function Around(w: World, t: TickInput): seq<Event> {
    Log(w.vault, t.before) + Log(Run(w.vault, t.before), t.during)
  }

  /** What a tick adds to the vault's log, with what investors did around it. */
  function TickLog(w: World, t: TickInput): seq<Event> {
    var r := Tick(w, t);
    match r.settlement
    case None => Around(w, t) + TradeEvents(TradesSent(t, r.priced.trades))
    case Some(Reverted(_)) => Around(w, t)
    case Some(Done(_, events)) => Around(w, t) + (events + TradeEvents(TradesSent(t, r.priced.trades)))
  }

  function Reports(w: World, ticks: seq<TickInput>): seq<Report>
    decreases |ticks|
  {
    if ticks == [] then []
    else [Tick(w, ticks[0])] + Reports(Tick(w, ticks[0]).after, ticks[1..])
  }

  /** The loop's side of a tick, run against the contract. */
  class TickLoop {
    const vault: StrategyVault
    var cached: Option<TickState>
    var lastWeights: Record<int>

    function State(): World
      reads this, vault
    {
      World(vault.State(), cached, lastWeights)
    }

    constructor (vault: StrategyVault)
      ensures this.vault == vault && State() == World(vault.State(), None, [])
    {
      this.vault := vault;
      cached, lastWeights := None, [];
    }

    /** Steps 2 to 4: read the vault, ask the strategy, price and clamp its answer. */
    method PriceTick(t: TickInput) returns (supply: nat, weights: Record<int>, priced: Priced, clamp: ClampedPnl)
      ensures supply == vault.totalShares
      ensures weights == Normalised(t.decision, t.declared)
      ensures priced == Price(Input(vault.totalManagedAssets, Previous(cached, lastWeights).weights, weights,
                                    Previous(cached, lastWeights).prices, t.prices, t.feeBps))
      ensures clamp == ClampPnl(priced.netPnl, vault.State().Reserve(), vault.totalManagedAssets)
    {
      var managed, reserve := vault.totalManagedAssets, vault.ReserveView();
      supply := vault.totalShares;
      var previous := Previous(cached, lastWeights);
      var adjusted;
      weights, adjusted := NormaliseWeights(t.decision, t.declared);
      priced := PriceDecision(Input(managed, previous.weights, weights, previous.prices, t.prices, t.feeBps));
      clamp := ClampPnl(priced.netPnl, reserve, managed);
    }

    /** Each trade in its own transaction, up to the one before which the tick fails. */
    method ReportTrades(trades: seq<PlannedTrade>)
      modifies vault
      ensures vault.State() == old(vault.State())
      ensures vault.log == old(vault.log) + TradeEvents(trades)
    {
      for i := 0 to |trades|
        invariant vault.State() == old(vault.State())
        invariant vault.log == old(vault.log) + TradeEvents(trades[..i])
      {
        var reverted := vault.RecordTrade(vault.operator, Reported(trades[i]));
        assert TradeEvents(trades[..i + 1]) == TradeEvents(trades[..i]) + [TradeRecordedEvent(Reported(trades[i]))];
      }
      assert trades[..|trades|] == trades;
    }

    /** Steps 5 and 6 on the chain: the settlement, and the trades if it went through. */
    method SettleAndReport(supply: nat, delta: int, trades: seq<PlannedTrade>) returns (reverted: bool)
      modifies vault
      ensures match SettlementOf(supply, old(vault.State()), vault.operator, delta)
              case None => !reverted && vault.State() == old(vault.State()) && vault.log == old(vault.log) + TradeEvents(trades)
              case Some(Reverted(_)) => reverted && vault.State() == old(vault.State()) && vault.log == old(vault.log)
              case Some(Done(after, events)) =>
                !reverted && vault.State() == after && vault.log == old(vault.log) + events + TradeEvents(trades)
    {
      if Settles(supply) {
        var why := vault.ApplyPnl(vault.operator, delta);
        if why.Some? {
          return true;
        }
      }
      ReportTrades(trades);
      return false;
    }

    /** Steps 2 to 5 up to the settlement, with the investors around the reading. */
    method Prepare(t: TickInput) returns (supply: nat, weights: Record<int>, priced: Priced, clamp: ClampedPnl)
      modifies this, vault
      ensures var r := Tick(old(State()), t);
              && supply == r.read.supply && weights == Normalised(t.decision, t.declared) && priced == r.priced && clamp == r.clamp
              && vault.State() == Run(r.read, t.during) && vault.operator == r.read.operator
      ensures vault.log == old(vault.log) + Around(old(State()), t)
      ensures cached == (if t.cacheLost then None else old(cached)) && lastWeights == old(lastWeights)
    {
      vault.TakeAll(t.before);
      if t.cacheLost {
        cached := None;
      }
      supply, weights, priced, clamp := PriceTick(t);
      ghost var l := vault.State();
      vault.TakeAll(t.during);
      Associates(old(vault.log), Log(old(vault.State()), t.before), Log(l, t.during));
    }

    method RunTick(t: TickInput)
      modifies this, vault
      ensures State() == Tick(old(State()), t).after
      ensures vault.log == old(vault.log) + TickLog(old(State()), t)
    {
      ghost var r, around := Tick(old(State()), t), Around(old(State()), t);
      var supply, weights, priced, clamp := Prepare(t);
      var trades := TradesSent(t, priced.trades);
      var reverted := SettleAndReport(supply, clamp.applied, trades);
      if r.settlement == None {
        Associates(old(vault.log), around, TradeEvents(trades));
      } else if r.settlement.value.Done? {
        Associates(old(vault.log), around, r.settlement.value.events);
        Associates(old(vault.log), around + r.settlement.value.events, TradeEvents(trades));
        Associates(around, r.settlement.value.events, TradeEvents(trades));
      }
      if reverted || t.failsAfterSettling {
        return;
      }
      lastWeights := weights;
      if t.stateWritten {
        cached := Some(TickState(weights, t.prices));
      }
    }
  }

  // ---------------------------------------------------------------- between reading and settling

  predicate NoSettlements(actions: seq<Action>) {
    forall a <- actions :: !a.ApplyPnl?
  }

  predicate NoWithdrawals(actions: seq<Action>) {
    forall a <- actions :: !a.Withdraw?
  }

  /** Investors move assets in and out of the managed part only, so the reserve never shrinks
      between settlements; without withdrawals, nor do the managed assets and the supply. */
  lemma {:induction false} BuffersBetweenSettlements(l: Ledger, actions: seq<Action>)
    requires Solvent(l) && NoSettlements(actions)
    ensures Run(l, actions).Reserve() >= l.Reserve()
    ensures NoWithdrawals(actions) ==> Run(l, actions).managed >= l.managed && Run(l, actions).supply >= l.supply
    decreases |actions|
  {
    if actions != [] {
      assert actions[0] in actions;
      StepStaysSolvent(l, actions[0]);
      BuffersBetweenSettlements(After(l, actions[0]), actions[1..]);
    }
  }

  /** A delta cut to the vault as it was read is accepted by the vault as it is found, unless a
      gain meets no shares at all or a loss meets less than it takes; the reserve is never what
      is missing. */
  lemma ClampedDeltaAccepted(read: Ledger, during: seq<Action>, netPnl: int)
    requires Solvent(read) && NoSettlements(during)
    ensures var delta, arrived := ClampPnl(netPnl, read.Reserve(), read.managed).applied, Run(read, during);
            Apply(arrived, ApplyPnl(read.operator, delta)).Done?
            <==> (delta > 0 ==> arrived.supply > 0) && (delta < 0 ==> arrived.managed >= -delta)
  {
    BuffersBetweenSettlements(read, during);
    RunStaysSolvent(read, during);
    ClampIsNearest(netPnl, read.Reserve(), read.managed);
  }

  /** Deposits and top-ups in between never make a settlement fail. */
  lemma AcceptedWithoutWithdrawals(read: Ledger, during: seq<Action>, netPnl: int)
    requires Solvent(read) && NoSettlements(during) && NoWithdrawals(during) && Settles(read.supply)
    ensures Apply(Run(read, during), ApplyPnl(read.operator, ClampPnl(netPnl, read.Reserve(), read.managed).applied)).Done?
  {
    ClampedDeltaAccepted(read, during, netPnl);
    BuffersBetweenSettlements(read, during);
    ClampIsNearest(netPnl, read.Reserve(), read.managed);
  }

  /** A gain survives withdrawals too, as long as one share is left to own it. */
  lemma GainAcceptedWhileSharesRemain(read: Ledger, during: seq<Action>, netPnl: int)
    requires Solvent(read) && NoSettlements(during) && netPnl >= 0 && Run(read, during).supply > 0
    ensures Apply(Run(read, during), ApplyPnl(read.operator, ClampPnl(netPnl, read.Reserve(), read.managed).applied)).Done?
  {
    ClampedDeltaAccepted(read, during, netPnl);
  }

  /** The clamp reads the vault before the settlement lands, so a withdrawal in between can still
      make a clamped loss revert: of 100 deposited half is gone when a loss of 60 arrives. */
  lemma WithdrawalCanDefeatTheClamp(operator: Address)
    ensures var read := Run(NewVault(operator), [Deposit(1, 100)]);
            var arrived := Run(read, [Withdraw(1, 50)]);
            && Solvent(read) && Settles(read.supply) && arrived.supply == 50
            && ClampPnl(-60, read.Reserve(), read.managed) == ClampedPnl(-60, Unclamped)
            && Apply(arrived, ApplyPnl(operator, -60)) == Reverted(LossExceedsManagedAssets(60, 50))
  {
    var read, arrived := Ledger(operator, 100, 100, 100, map[1 := 100]), Ledger(operator, 50, 50, 50, map[1 := 50]);
    NewVaultIsSolvent(operator);
    RunStaysSolvent(NewVault(operator), [Deposit(1, 100)]);
    RunOfOne(NewVault(operator), Deposit(1, 100));
    assert After(NewVault(operator), Deposit(1, 100)) == read;
    RunOfOne(read, Withdraw(1, 50));
    assert After(read, Withdraw(1, 50)) == arrived;
  }

  // ---------------------------------------------------------------- every run of ticks

  ghost predicate ValidWorld(w: World) {
    && Solvent(w.vault)
    && ValidWeights(w.lastWeights)
    && (w.cached.Some? ==>
          ValidWeights(w.cached.value.weights) && forall s <- w.cached.value.prices :: w.cached.value.prices[s] >= 0)
  }

  /** Any answer of the strategy and any behaviour of the investors; the oracle quotes no negative
      price, and the venue cost is one the book can bear. */
  ghost predicate ValidTick(t: TickInput) {
    && DistinctKeys(t.decision)
    && (forall s <- t.prices :: t.prices[s] >= 0)
    && t.feeBps <= MAX_SAFE_FEE_BPS
  }

  lemma TickKeepsWorld(w: World, t: TickInput)
    requires ValidWorld(w) && ValidTick(t)
    ensures ValidWorld(Tick(w, t).after)
    ensures Tick(w, t).clamp.clamped != ByManagedAssets
  {
    var r := Tick(w, t);
    RunStaysSolvent(w.vault, t.before);
    RunStaysSolvent(r.read, t.during);
    StepStaysSolvent(Run(r.read, t.during), ApplyPnl(r.read.operator, r.clamp.applied));
    NormalisedIsValid(t.decision, t.declared);
    var previous := Previous(if t.cacheLost then None else w.cached, w.lastWeights);
    LossWithinManaged(Input(r.read.managed, previous.weights, Normalised(t.decision, t.declared), previous.prices, t.prices, t.feeBps));
  }

  /** In every run of ticks, whatever the strategy answers and whichever writes fail: the vault
      stays solvent, the remembered weights fit the book, the remembered prices are not negative, and
      no loss is ever cut to the managed assets. */
  lemma {:induction false} EveryRunOfTicks(w: World, ticks: seq<TickInput>)
    requires ValidWorld(w) && forall t <- ticks :: ValidTick(t)
    ensures forall r <- Reports(w, ticks) :: ValidWorld(r.after) && r.clamp.clamped != ByManagedAssets
    decreases |ticks|
  {
    if ticks != [] {
      assert ticks[0] in ticks;
      TickKeepsWorld(w, ticks[0]);
      EveryRunOfTicks(Tick(w, ticks[0]).after, ticks[1..]);
    }
  }

  /** What a tick settles: nothing for a vault without depositors, and otherwise the clamped
      delta, added to the managed assets as the settlement found them. */
  lemma SettledExactly(w: World, t: TickInput)
    requires ValidWorld(w) && ValidTick(t) && NoSettlements(t.during) && NoWithdrawals(t.during)
    ensures var r := Tick(w, t);
            var arrived := Run(r.read, t.during);
            && r.after.vault == arrived.(managed := r.after.vault.managed)
            && r.after.vault.managed == arrived.managed + if r.read.supply == 0 then 0 else r.clamp.applied
  {
    var r := Tick(w, t);
    RunStaysSolvent(w.vault, t.before);
    if Settles(r.read.supply) {
      AcceptedWithoutWithdrawals(r.read, t.during, r.priced.netPnl);
    }
  }

  // ---------------------------------------------------------------- where the next interval begins

  /** The weights and prices a tick measures its move from. */
  function MeasuredFrom(w: World, t: TickInput): TickState {
    Previous(if t.cacheLost then None else w.cached, w.lastWeights)
  }

  /** What a tick ought to leave behind for the next. */
  function Reached(t: TickInput): TickState { TickState(Normalised(t.decision, t.declared), t.prices) }

  predicate Landed(w: World, t: TickInput) {
    var settlement := Tick(w, t).settlement;
    settlement.Some? && settlement.value.Done?
  }

  /** It did not fail after settling, and its state file was written. */
  predicate Remembered(t: TickInput) { !t.failsAfterSettling && t.stateWritten }

  /** Of the ticks whose settlement landed, those remember where they got to that neither fail later
      nor lose the write of the state file. The others leave the old state standing. */
  lemma RememberedIffWritten(w: World, t: TickInput)
    requires Landed(w, t) && (t.cacheLost || w.cached != Some(Reached(t)))
    ensures Tick(w, t).after.cached == Some(Reached(t)) <==> Remembered(t)
    ensures Tick(w, t).after.cached != Some(Reached(t)) ==> Tick(w, t).after.cached == if t.cacheLost then None else w.cached
  {
  }

  /** The next tick begins its interval where this one ended exactly if this one was remembered; and
      otherwise exactly where this one began, so that what was settled is measured again. */
  lemma IntervalsMeetIffRemembered(w: World, t: TickInput, next: TickInput)
    requires Landed(w, t) && !t.cacheLost && w.cached.Some? && MeasuredFrom(w, t) != Reached(t) && !next.cacheLost
    ensures MeasuredFrom(Tick(w, t).after, next) == Reached(t) <==> Remembered(t)
    ensures MeasuredFrom(Tick(w, t).after, next) == MeasuredFrom(w, t) <==> !Remembered(t)
  {
    RememberedIffWritten(w, t);
  }

  predicate Succeeded(w: World, t: TickInput) {
    var settlement := Tick(w, t).settlement;
    !t.failsAfterSettling && (settlement.Some? ==> settlement.value.Done?)
  }

  function AfterTicks(w: World, ticks: seq<TickInput>): World
    decreases |ticks|
  {
    if ticks == [] then w else AfterTicks(Tick(w, ticks[0]).after, ticks[1..])
  }

  /** The weights of the last tick that succeeded, or those of before. */
  function LastSuccess(w: World, ticks: seq<TickInput>, before: Record<int>): Record<int>
    decreases |ticks|
  {
    if ticks == [] then before
    else
      LastSuccess(Tick(w, ticks[0]).after, ticks[1..],
                  if Succeeded(w, ticks[0]) then Normalised(ticks[0].decision, ticks[0].declared) else before)
  }

  /** Over any run of ticks the execution log holds what the last successful one decided. */
  lemma {:induction false} LogHoldsLastSuccess(w: World, ticks: seq<TickInput>)
    ensures AfterTicks(w, ticks).lastWeights == LastSuccess(w, ticks, w.lastWeights)
    decreases |ticks|
  {
    if ticks != [] {
      LogHoldsLastSuccess(Tick(w, ticks[0]).after, ticks[1..]);
    }
  }

  /** A tick that finds no state file goes on from there, and measures no move. */
  lemma LostStateFallsBack(w: World, ticks: seq<TickInput>, t: TickInput)
    requires t.cacheLost || AfterTicks(w, ticks).cached == None
    ensures var at := AfterTicks(w, ticks);
            && MeasuredFrom(at, t) == TickState(LastSuccess(w, ticks, w.lastWeights), map[])
            && Tick(at, t).priced.legs == [] && Tick(at, t).priced.marketPnl == 0
  {
    var at := AfterTicks(w, ticks);
    LogHoldsLastSuccess(w, ticks);
    var from := MeasuredFrom(at, t);
    NothingMeasured(Input(Tick(at, t).read.managed, from.weights, Normalised(t.decision, t.declared), map[], t.prices, t.feeBps), from.weights);
  }

  lemma {:induction false} NothingMeasured(input: Input, held: Record<int>)
    requires input.previousPrices == map[]
    ensures Legs(input, held) == []
  {
    if held != [] {
      NothingMeasured(input, held[..|held| - 1]);
    }
  }

  predicate StandStill(held: Record<int>, from: map<string, int>, to: map<string, int>) {
    forall i :: 0 <= i < |held| && held[i].0 in from && held[i].0 in to ==> to[held[i].0] == from[held[i].0]
  }

  lemma NoMoveNoPnl(input: Input, leg: (string, int))
    requires Measured(input, leg) && input.currentPrices[leg.0] == input.previousPrices[leg.0]
    ensures Leg(input, leg).pnl == 0
  {
    var from := input.previousPrices[leg.0];
    assert input.managed * leg.1 * (from - from) == 0;
    assert TruncDiv(0, BPS * from) == 0;
  }

  lemma EarnedMore(legs: seq<LegPnl>, leg: LegPnl)
    ensures Earned(legs + [leg]) == Earned(legs) + leg.pnl
  {
    assert (legs + [leg])[..|legs|] == legs;
  }

  lemma {:induction false} NothingEarned(input: Input, held: Record<int>)
    requires StandStill(held, input.previousPrices, input.currentPrices)
    ensures Earned(Legs(input, held)) == 0
  {
    if held != [] {
      var front, last := held[..|held| - 1], held[|held| - 1];
      assert StandStill(front, input.previousPrices, input.currentPrices);
      NothingEarned(input, front);
      if Measured(input, last) {
        NoMoveNoPnl(input, last);
        EarnedMore(Legs(input, front), Leg(input, last));
      } else {
        assert Legs(input, front) + [] == Legs(input, front);
      }
    }
  }

  /** A leg without its pnl: the move that was priced. */
  function Moves(legs: seq<LegPnl>): seq<(string, int, int, int)> {
    seq(|legs|, i requires 0 <= i < |legs| => (legs[i].symbol, legs[i].weightBps, legs[i].priceFrom, legs[i].priceTo))
  }

  lemma {:induction false} SameMoves(a: Input, b: Input, held: Record<int>)
    requires a.previousPrices == b.previousPrices && a.currentPrices == b.currentPrices
    ensures Moves(Legs(a, held)) == Moves(Legs(b, held))
  {
    if held != [] {
      SameMoves(a, b, held[..|held| - 1]);
      assert |Legs(a, held[..|held| - 1])| == |Moves(Legs(a, held[..|held| - 1]))|;
      assert |Legs(b, held[..|held| - 1])| == |Moves(Legs(b, held[..|held| - 1]))|;
      MovesOfMore(Legs(a, held[..|held| - 1]), if Measured(a, held[|held| - 1]) then [Leg(a, held[|held| - 1])] else []);
      MovesOfMore(Legs(b, held[..|held| - 1]), if Measured(b, held[|held| - 1]) then [Leg(b, held[|held| - 1])] else []);
    }
  }

  lemma MovesOfMore(legs: seq<LegPnl>, more: seq<LegPnl>)
    ensures Moves(legs + more) == Moves(legs) + Moves(more)
  {
  }

  /** When the prices have not moved since a settled tick, the next one earns nothing if that tick was
      remembered, and prices every one of its moves again if it was not. */
  lemma StillPricesTellThemApart(w: World, t: TickInput, next: TickInput)
    requires Landed(w, t) && !t.cacheLost && w.cached.Some? && !next.cacheLost && next.prices == t.prices
    ensures var r, again := Tick(w, t), Tick(Tick(w, t).after, next);
            if Remembered(t) then again.priced.marketPnl == 0
            else Moves(again.priced.legs) == Moves(r.priced.legs)
  {
    var r, again := Tick(w, t), Tick(Tick(w, t).after, next);
    var from, from' := MeasuredFrom(w, t), MeasuredFrom(r.after, next);
    var input := Input(r.read.managed, from.weights, Normalised(t.decision, t.declared), from.prices, t.prices, t.feeBps);
    var input' := Input(again.read.managed, from'.weights, Normalised(next.decision, next.declared), from'.prices, next.prices, next.feeBps);
    if Remembered(t) {
      NothingEarned(input', from'.weights);
    } else {
      SameMoves(input, input', from.weights);
    }
  }

  /** The exact worth of a held asset's move, as a numerator over a denominator. */
  function ExactMove(managed: int, weight: int, from: int, to: int): (int, int) { (managed * weight * (to - from), BPS * from) }

  lemma CrossDifference(e: int, from: int, between: int, to: int)
    ensures e * (to - from) * (BPS * between) - e * (to - between) * (BPS * from) == (e * BPS) * (to * (between - from))
  {
    var left, right := (to - from) * between, (to - between) * from;
    assert left - right == to * (between - from);
    assert e * (to - from) * (BPS * between) == (e * BPS) * left;
    assert e * (to - between) * (BPS * from) == (e * BPS) * right;
    Distribute(left, right, e * BPS);
  }

  lemma CrossMultiplied(e: int, from: int, between: int, to: int)
    requires e > 0 && from > 0 && between > 0
    ensures e * (to - from) * (BPS * between) == e * (to - between) * (BPS * from) <==> to == 0 || from == between
  {
    CrossDifference(e, from, between, to);
    SameFactor(e * BPS, to * (between - from), 0);
    ZeroProduct(to, between - from);
  }

  lemma CrossOrder(e: int, from: int, between: int, to: int)
    requires e > 0 && to >= 0
    ensures from <= between ==> e * (to - between) * (BPS * from) <= e * (to - from) * (BPS * between)
    ensures between <= from ==> e * (to - from) * (BPS * between) <= e * (to - between) * (BPS * from)
  {
    CrossDifference(e, from, between, to);
    if from <= between {
      MulMonotone(0, to, between - from);
      MulMonotone(0, to * (between - from), e * BPS);
    } else {
      MulMonotone(between - from, 0, to);
      MulMonotone(to * (between - from), 0, e * BPS);
    }
  }

  lemma SameFactor(k: int, a: int, b: int)
    requires k > 0
    ensures k * a == k * b <==> a == b
  {
    ZeroProduct(k, a - b);
  }

  lemma ZeroProduct(a: int, b: int)
    ensures a * b == 0 <==> a == 0 || b == 0
  {
  }

  lemma {:induction false} LegIsListed(input: Input, held: Record<int>, i: nat)
    requires i < |held| && Measured(input, held[i])
    ensures Leg(input, held[i]) in Legs(input, held)
  {
    if i < |held| - 1 {
      LegIsListed(input, held[..|held| - 1], i);
    }
  }

  function Rounded(q: (int, int)): int
    requires q.1 != 0
  {
    TruncDiv(q.0, q.1)
  }

  /** Cross-multiplied: by two base units or more above. */
  predicate TwoAbove(q: (int, int), r: (int, int)) { q.0 * r.1 - r.0 * q.1 >= 2 * (q.1 * r.1) }

  lemma RoundedInOrder(q: (int, int), r: (int, int))
    requires q.1 > 0 && r.1 > 0 && q.0 * r.1 <= r.0 * q.1
    ensures Rounded(q) <= Rounded(r) && (TwoAbove(r, q) ==> Rounded(q) < Rounded(r))
  {
    TruncDivKeepsOrder(q.0, q.1, r.0, r.1);
    Swapped(q.1, r.1);
  }

  lemma Swapped(a: int, b: int)
    ensures a * b == b * a
  {
  }

  /** How a move measured from where the tick before began compares with what is due. */
  predicate ComparesWithDue(settled: (int, int), due: (int, int), began: int, ended: int, now: int)
    requires settled.1 > 0 && due.1 > 0
  {
    && (settled.0 * due.1 == due.0 * settled.1 <==> now == 0 || began == ended)
    && (now == 0 || began == ended ==> Rounded(settled) == Rounded(due))
    && (began <= ended ==> Rounded(settled) >= Rounded(due))
    && (ended <= began ==> Rounded(settled) <= Rounded(due))
    && (TwoAbove(settled, due) || TwoAbove(due, settled) ==> Rounded(settled) != Rounded(due))
  }

  /** What an asset held through both ticks earns in the second is measured from where the first began
      instead of where it ended. Before rounding it comes out right in one of two cases only: the price
      now is zero, or it had not moved in the first place. After a rise it earns no less than is due,
      after a fall no more, and something else altogether where the two are two base units apart. */
  lemma RepeatedMoveIsRightIff(w: World, t: TickInput, next: TickInput, i: nat)
    requires Landed(w, t) && !Remembered(t) && !t.cacheLost && w.cached.Some? && !next.cacheLost
    requires i < |w.cached.value.weights| && w.cached.value.weights[i].1 > 0
    requires var symbol := w.cached.value.weights[i].0;
             && symbol in w.cached.value.prices && symbol in t.prices && symbol in next.prices
             && w.cached.value.prices[symbol] > 0 && t.prices[symbol] > 0 && next.prices[symbol] >= 0
    requires Tick(Tick(w, t).after, next).read.managed > 0
    ensures var (symbol, weight) := w.cached.value.weights[i];
            var again, began, ended, now := Tick(Tick(w, t).after, next), w.cached.value.prices[symbol], t.prices[symbol], next.prices[symbol];
            var settled, due := ExactMove(again.read.managed, weight, began, now), ExactMove(again.read.managed, weight, ended, now);
            && LegPnl(symbol, weight, began, now, Rounded(settled)) in again.priced.legs
            && ComparesWithDue(settled, due, began, ended, now)
  {
    MeasuredFromForgotten(w, t, next);
    LegComparesWithDue(Tick(w, t).after, next, w.cached.value, i, t.prices[w.cached.value.weights[i].0]);
  }

  lemma LegComparesWithDue(w: World, t: TickInput, from: TickState, i: nat, ended: int)
    requires from == MeasuredFrom(w, t) && i < |from.weights| && from.weights[i].1 > 0
    requires var symbol := from.weights[i].0;
             symbol in from.prices && symbol in t.prices && from.prices[symbol] > 0 && t.prices[symbol] >= 0
    requires ended > 0 && Tick(w, t).read.managed > 0
    ensures var (symbol, weight) := from.weights[i];
            var r, began, now := Tick(w, t), from.prices[symbol], t.prices[symbol];
            var settled, due := ExactMove(r.read.managed, weight, began, now), ExactMove(r.read.managed, weight, ended, now);
            && LegPnl(symbol, weight, began, now, Rounded(settled)) in r.priced.legs
            && ComparesWithDue(settled, due, began, ended, now)
  {
    var (symbol, weight) := from.weights[i];
    ListedLeg(w, t, i);
    MulMonotone(1, weight, Tick(w, t).read.managed);
    RepeatedPnl(Tick(w, t).read.managed * weight, from.prices[symbol], ended, t.prices[symbol]);
  }

  lemma MeasuredFromForgotten(w: World, t: TickInput, next: TickInput)
    requires !Remembered(t) && !t.cacheLost && w.cached.Some? && !next.cacheLost
    ensures MeasuredFrom(Tick(w, t).after, next) == w.cached.value
  {
  }

  lemma ListedLeg(w: World, t: TickInput, i: nat)
    requires var from := MeasuredFrom(w, t);
             && i < |from.weights| && from.weights[i].1 > 0
             && from.weights[i].0 in from.prices && from.weights[i].0 in t.prices && from.prices[from.weights[i].0] > 0
    ensures var from, r := MeasuredFrom(w, t), Tick(w, t);
            var (symbol, weight) := from.weights[i];
            LegPnl(symbol, weight, from.prices[symbol], t.prices[symbol],
                   Rounded(ExactMove(r.read.managed, weight, from.prices[symbol], t.prices[symbol]))) in r.priced.legs
  {
    var from, r := MeasuredFrom(w, t), Tick(w, t);
    LegIsListed(Input(r.read.managed, from.weights, Normalised(t.decision, t.declared), from.prices, t.prices, t.feeBps), from.weights, i);
  }

  lemma RepeatedPnl(exposure: int, began: int, ended: int, now: int)
    requires exposure > 0 && began > 0 && ended > 0 && now >= 0
    ensures ComparesWithDue((exposure * (now - began), BPS * began), (exposure * (now - ended), BPS * ended), began, ended, now)
  {
    var settled, due := (exposure * (now - began), BPS * began), (exposure * (now - ended), BPS * ended);
    CrossMultiplied(exposure, began, ended, now);
    CrossOrder(exposure, began, ended, now);
    MulMonotone(1, settled.1, due.1);
    Swapped(settled.1, due.1);
    if settled.0 * due.1 <= due.0 * settled.1 {
      RoundedInOrder(settled, due);
    }
    if due.0 * settled.1 <= settled.0 * due.1 {
      RoundedInOrder(due, settled);
    }
  }

  // ---------------------------------------------------------------- one move, settled twice

  const ETHER := [("ETH", BPS)]

  lemma WithoutFee(input: Input)
    requires input.feeBps == 0
    ensures Price(input).netPnl == Earned(Legs(input, input.previous))
  {
    var p := Price(input);
    var chargeable := if p.assetsAfterMarket > 0 then p.assetsAfterMarket else 0;
    assert chargeable * p.turnoverBps * 0 == 0;
    assert TruncDiv(0, BPS * BPS) == 0;
  }

  lemma OneLegEarns(input: Input, leg: (string, int))
    requires Measured(input, leg)
    ensures Earned(Legs(input, [leg])) == Leg(input, leg).pnl
  {
    assert [leg][..0] == [];
    assert Legs(input, []) + [Leg(input, leg)] == Legs(input, [leg]);
    EarnedMore([], Leg(input, leg));
  }

  lemma EtherEarns(managed: nat, from: nat, to: nat)
    requires from > 0
    ensures Price(Input(managed, ETHER, ETHER, map["ETH" := from], map["ETH" := to], 0)).netPnl
            == TruncDiv(managed * BPS * (to - from), BPS * from)
  {
    var input := Input(managed, ETHER, ETHER, map["ETH" := from], map["ETH" := to], 0);
    WithoutFee(input);
    OneLegEarns(input, ETHER[0]);
  }

  lemma KeepsEther(declared: set<string>)
    requires declared == {"ETH"}
    ensures Normalised([("ETH", Finite(10_000.0))], declared) == ETHER
  {
    var target := [("ETH", Finite(10_000.0))];
    assert Clamped(Finite(10_000.0)) == BPS;
    assert target[..0] == [] && Kept([], declared) == [];
    assert Kept(target, declared) == [] + [("ETH", BPS)] == ETHER;
    assert ETHER[..0] == [] && Total(ETHER) == 0 + BPS;
  }

  /** All of the book is to be in ether; what goes wrong with the tick is left open. */
  predicate EtherAt(t: TickInput, price: nat) {
    && t.before == [] && t.during == [] && !t.cacheLost && t.feeBps == 0
    && t.declared == {"ETH"} && t.decision == [("ETH", Finite(10_000.0))] && t.prices == map["ETH" := price]
  }

  lemma Regrouped(m: int, d: int, g: int, f: int, b: int)
    requires m * d == g * f
    ensures m * b * d == g * (b * f)
  {
    assert m * b * d == m * d * b;
    assert g * (b * f) == g * f * b;
  }

  lemma EtherGain(managed: nat, from: nat, gain: nat)
    requires 0 < from <= 110 && managed * (110 - from) == gain * from
    ensures Price(Input(managed, ETHER, ETHER, map["ETH" := from], map["ETH" := 110], 0)).netPnl == gain
  {
    EtherEarns(managed, from, 110);
    var exposure, unit := managed * BPS * (110 - from), BPS * from;
    Regrouped(managed, 110 - from, gain, from, BPS);
    TruncDivOfNat(exposure, unit);
    DivAtLeast(exposure, unit, gain);
    DivAtMost(exposure, unit, gain);
  }

  /** A tick that nobody interferes with, on a gain that the reserve can pay. */
  lemma QuietGain(w: World, t: TickInput, gain: nat)
    requires t.before == [] && t.during == [] && !t.cacheLost && w.vault.supply > 0
    requires var from := Previous(w.cached, w.lastWeights);
             Price(Input(w.vault.managed, from.weights, Normalised(t.decision, t.declared), from.prices, t.prices, t.feeBps)).netPnl
             == gain <= w.vault.Reserve()
    ensures Landed(w, t) && Tick(w, t).after.vault == w.vault.(managed := w.vault.managed + gain)
    ensures Tick(w, t).after.cached == if Remembered(t) then Some(Reached(t)) else w.cached
  {
  }

  lemma EtherTick(w: World, t: TickInput, from: nat, gain: nat)
    requires EtherAt(t, 110) && 0 < from <= 110 && w.cached == Some(TickState(ETHER, map["ETH" := from]))
    requires w.vault.supply > 0 && gain <= w.vault.Reserve() && w.vault.managed * (110 - from) == gain * from
    ensures Tick(w, t).after.vault == w.vault.(managed := w.vault.managed + gain)
    ensures Tick(w, t).after.cached == if Remembered(t) then Some(TickState(ETHER, map["ETH" := 110])) else w.cached
  {
    KeepsEther(t.declared);
    EtherGain(w.vault.managed, from, gain);
    QuietGain(w, t, gain);
  }

  lemma SecondEtherTick(once: World, next: TickInput, remembered: bool)
    requires EtherAt(next, 110)
    requires once.vault.supply == 1000 && once.vault.managed == 1100 && once.vault.balance == 2000
    requires once.cached == Some(TickState(ETHER, map["ETH" := if remembered then 110 else 100]))
    ensures Tick(once, next).after.vault.managed == if remembered then 1100 else 1210
  {
    EtherTick(once, next, if remembered then 110 else 100, if remembered then 0 else 110);
  }

  /** A loop that remembers nothing settles nothing, and remembers where it began. */
  lemma FirstEtherTick(w: World, t: TickInput)
    requires EtherAt(t, 100) && Remembered(t) && w.vault.supply > 0 && w.cached == None && w.lastWeights == []
    requires w.vault.managed <= w.vault.balance
    ensures Tick(w, t).after.vault == w.vault && Tick(w, t).after.cached == Some(TickState(ETHER, map["ETH" := 100]))
  {
    KeepsEther(t.declared);
    WithoutFee(Input(w.vault.managed, [], ETHER, map[], t.prices, 0));
    QuietGain(w, t, 0);
  }

  /** A loop that has remembered nothing yet, on a book of 1000 with as much in reserve. Its first tick
      finds ether at 100 and is remembered. Then ether rises once, to 110. Two ticks there make 1100 of
      the book when the first of them is remembered. When it fails after settling, or its state file is
      not written, the second settles the rise again and makes 1210. */
  lemma OneRiseSettledTwice(operator: Address, w: World, first: TickInput, t: TickInput, next: TickInput)
    requires w == World(Run(NewVault(operator), [Deposit(1, 1000), FundReserve(2, 1000)]), None, [])
    requires EtherAt(first, 100) && Remembered(first) && EtherAt(t, 110) && EtherAt(next, 110)
    ensures var start := Tick(w, first).after;
            var once := Tick(start, t).after;
            && start.vault.managed == 1000 && once.vault.managed == 1100
            && Tick(once, next).after.vault.managed == if Remembered(t) then 1100 else 1210
  {
    RunOfTwo(NewVault(operator), Deposit(1, 1000), FundReserve(2, 1000));
    assert After(NewVault(operator), Deposit(1, 1000)) == Ledger(operator, 1000, 1000, 1000, map[1 := 1000]);
    assert w.vault == Ledger(operator, 2000, 1000, 1000, map[1 := 1000]);
    FirstEtherTick(w, first);
    var start := Tick(w, first).after;
    EtherTick(start, t, 100, 100);
    SecondEtherTick(Tick(start, t).after, next, Remembered(t));
  }
}
