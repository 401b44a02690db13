/** What the ticks of backend/src/scheduler/tick.ts do to a vault, said in the vault's own calls and
    read off its own log. */
module TickRuns {
  import opened Collections
  import opened Vault
  import opened Weights
  import opened Pricing
  import opened Ticks
  import C = ChainMetrics

  // ---------------------------------------------------------------- a tick is a run of calls

  function TradeCalls(operator: Address, trades: seq<PlannedTrade>): seq<Action> {
    if trades == [] then [] else [RecordTrade(operator, Reported(trades[0]))] + TradeCalls(operator, trades[1..])
  }

  /** The operator's calls: the settlement, unless there is nobody to settle for, and the trades behind it,
      unless it reverted. */
  function OperatorCalls(w: World, t: TickInput): seq<Action> {
    var r := Tick(w, t);
    var settle, report := [ApplyPnl(r.read.operator, r.clamp.applied)], TradeCalls(r.read.operator, TradesSent(t, r.priced.trades));
    if r.read.supply == 0 then report
    else if Apply(Run(r.read, t.during), settle[0]).Done? then settle + report
    else settle
  }

  function CallsOf(w: World, t: TickInput): seq<Action> { t.before + (t.during + OperatorCalls(w, t)) }

  lemma {:induction false} TradesAreOnlyReported(l: Ledger, trades: seq<PlannedTrade>)
    ensures Run(l, TradeCalls(l.operator, trades)) == l && Log(l, TradeCalls(l.operator, trades)) == TradeEvents(trades)
    decreases |trades|
  {
    if trades != [] {
      var calls := TradeCalls(l.operator, trades);
      TradesAreOnlyReported(l, trades[1..]);
      assert calls[1..] == TradeCalls(l.operator, trades[1..]);
      assert TradeEvents(trades) == [TradeRecordedEvent(Reported(trades[0]))] + TradeEvents(trades[1..]);
    }
  }

  lemma SettlesAndReports(l: Ledger, delta: int, trades: seq<PlannedTrade>)
    requires Apply(l, ApplyPnl(l.operator, delta)).Done?
    ensures var calls, done := [ApplyPnl(l.operator, delta)] + TradeCalls(l.operator, trades), Apply(l, ApplyPnl(l.operator, delta));
            Run(l, calls) == done.after && Log(l, calls) == done.events + TradeEvents(trades)
  {
    RunsApart(l, [ApplyPnl(l.operator, delta)], TradeCalls(l.operator, trades));
    RunOfOne(l, ApplyPnl(l.operator, delta));
    LogOfOne(l, ApplyPnl(l.operator, delta));
    TradesAreOnlyReported(After(l, ApplyPnl(l.operator, delta)), trades);
  }

  lemma LogOfOne(l: Ledger, a: Action)
    ensures Log(l, [a]) == Emitted(l, a)
  {
    assert [a][1..] == [] && Log(After(l, a), []) == [];
    assert Emitted(l, a) + [] == Emitted(l, a);
  }

  lemma {:induction false} OperatorStays(l: Ledger, actions: seq<Action>)
    ensures Run(l, actions).operator == l.operator
    decreases |actions|
  {
    if actions != [] {
      OperatorStays(After(l, actions[0]), actions[1..]);
    }
  }

  /** A tick does nothing to the vault but make these calls: they lead from the ledger it began with to
      the one it leaves, and the log it adds is theirs. */
  lemma TickIsItsCalls(w: World, t: TickInput)
    ensures Run(w.vault, CallsOf(w, t)) == Tick(w, t).after.vault
    ensures Log(w.vault, CallsOf(w, t)) == TickLog(w, t)
  {
    var r, arrived, calls := Tick(w, t), Run(Run(w.vault, t.before), t.during), OperatorCalls(w, t);
    RunsApart(w.vault, t.before, t.during + calls);
    RunsApart(r.read, t.during, calls);
    OperatorStays(r.read, t.during);
    Associates(Log(w.vault, t.before), Log(r.read, t.during), Log(arrived, calls));
    var sent := TradesSent(t, r.priced.trades);
    if r.read.supply == 0 {
      TradesAreOnlyReported(arrived, sent);
    } else if Apply(arrived, ApplyPnl(r.read.operator, r.clamp.applied)).Done? {
      SettlesAndReports(arrived, r.clamp.applied, sent);
    } else {
      RunOfOne(arrived, ApplyPnl(r.read.operator, r.clamp.applied));
      LogOfOne(arrived, ApplyPnl(r.read.operator, r.clamp.applied));
      assert Around(w, t) + [] == Around(w, t);
    }
  }

  // ---------------------------------------------------------------- every run of ticks

  function AllCalls(w: World, ticks: seq<TickInput>): seq<Action>
    decreases |ticks|
  {
    if ticks == [] then [] else CallsOf(w, ticks[0]) + AllCalls(Tick(w, ticks[0]).after, ticks[1..])
  }

  function WholeLog(w: World, ticks: seq<TickInput>): seq<Event>
    decreases |ticks|
  {
    if ticks == [] then [] else TickLog(w, ticks[0]) + WholeLog(Tick(w, ticks[0]).after, ticks[1..])
  }

  lemma {:induction false} RunOfTicksIsItsCalls(w: World, ticks: seq<TickInput>)
    ensures Run(w.vault, AllCalls(w, ticks)) == AfterTicks(w, ticks).vault
    ensures Log(w.vault, AllCalls(w, ticks)) == WholeLog(w, ticks)
    decreases |ticks|
  {
    if ticks != [] {
      TickIsItsCalls(w, ticks[0]);
      RunOfTicksIsItsCalls(Tick(w, ticks[0]).after, ticks[1..]);
      RunsApart(w.vault, CallsOf(w, ticks[0]), AllCalls(Tick(w, ticks[0]).after, ticks[1..]));
    }
  }

  /** Over any run of ticks, with investors coming and going in between, what the vault manages is what
      its log says: what it began with, deposits and settlements less redemptions, to the base unit. */
  lemma TicksAreNetOfLog(w: World, ticks: seq<TickInput>)
    ensures AfterTicks(w, ticks).vault.managed == w.vault.managed + NetMoved(WholeLog(w, ticks))
  {
    RunOfTicksIsItsCalls(w, ticks);
    ManagedIsNetOfLog(w.vault, AllCalls(w, ticks));
  }

  /** From the deployment on: whatever order the log of the ticks and of their investors is delivered in,
      what backend/src/lib/chain-metrics.ts folds it to is the vault that the last tick left. */
  lemma FoldedTicksAreTheVault(operator: Address, ticks: seq<TickInput>, logs: seq<C.LogEntry>, delivered: seq<C.LogEntry>, times: map<nat, int>)
    requires C.Recorded(WholeLog(World(NewVault(operator), None, []), ticks), logs, times)
    requires multiset(delivered) == multiset(logs)
    ensures var reading, vault := C.Reading(delivered, times), AfterTicks(World(NewVault(operator), None, []), ticks).vault;
            && reading.totalAssets == vault.managed && reading.totalShares == vault.supply
            && reading.investorCount == |C.Holders(vault)|
  {
    var w := World(NewVault(operator), None, []);
    RunOfTicksIsItsCalls(w, ticks);
    C.ReadingIsTheVault(operator, AllCalls(w, ticks), logs, delivered, times);
  }

  // ---------------------------------------------------------------- what the trade events say

  /** A tick that does not fail after settling reports every trade; one that does, those it got to. */
  lemma ReportsInOrder(t: TickInput, trades: seq<PlannedTrade>)
    ensures TradesSent(t, trades) <= trades
    ensures !t.failsAfterSettling || t.tradesReported >= |trades| ==> TradesSent(t, trades) == trades
    ensures t.failsAfterSettling && t.tradesReported < |trades| ==> |TradesSent(t, trades)| == t.tradesReported
  {
  }

  /** A report names the pair and the side of a weight that the decision changes, and the price quoted for
      it; its size is that change's share of the assets, rounded down to a base unit. */
  predicate SpeaksOf(report: TradeReport, input: Input, symbol: string, charged: int) {
    var change := WeightOf(input.target, symbol) - WeightOf(input.previous, symbol);
    && report.pair == symbol + "/USDC" && change != 0 && (report.isBuy <==> change > 0)
    && symbol in input.currentPrices && report.price == input.currentPrices[symbol]
    && report.size * BPS <= charged * (if change > 0 then change else -change) < report.size * BPS + BPS
  }

  lemma PlannedSpeaksOf(input: Input, i: nat)
    requires i < |Price(input).trades|
    ensures var p := Price(input);
            SpeaksOf(Reported(p.trades[i]), input, p.trades[i].symbol, if p.assetsAfterMarket > 0 then p.assetsAfterMarket else 0)
  {
    var trade := Price(input).trades[i];
    TradesCarryOutTheDecision(input);
    assert HasTrade(Price(input).trades, trade.symbol);
    assert WeightOf(input.previous, trade.symbol) + trade.deltaBps == WeightOf(input.target, trade.symbol);
  }

  /** What a tick was given to price. */
  function InputOf(w: World, t: TickInput): Input {
    var from := MeasuredFrom(w, t);
    Input(Run(w.vault, t.before).managed, from.weights, Normalised(t.decision, t.declared), from.prices, t.prices, t.feeBps)
  }

  /** Every trade event of a tick speaks of the book the tick held, of the decision it was given and of the
      prices it saw. */
  lemma TradeEventsSpeakOfTheBook(w: World, t: TickInput, i: nat)
    requires i < |TradesSent(t, Tick(w, t).priced.trades)|
    ensures var p := Tick(w, t).priced;
            SpeaksOf(TradeEvents(TradesSent(t, p.trades))[i].trade, InputOf(w, t), p.trades[i].symbol,
                     if p.assetsAfterMarket > 0 then p.assetsAfterMarket else 0)
  {
    assert Tick(w, t).priced == Price(InputOf(w, t));
    ReportsInOrder(t, Tick(w, t).priced.trades);
    PlannedSpeaksOf(InputOf(w, t), i);
  }
}
