/** contracts/src/StrategyVault.sol: the ledger of one vault, every call that can change it,
    and what every run of calls keeps. A reverted call leaves the ledger as it was. */
module Vault {
  import opened Arithmetic
  import opened Collections
  import opened ShareMath

  datatype Revert =
    | NotOperator
    | ZeroAmount
    | ZeroShares
    | InsufficientShares(requested: nat, held: nat)
    | ReserveExhausted(gain: nat, reserve: nat)
    | LossExceedsManagedAssets(loss: nat, managed: nat)
    | NoSharesOutstanding
    | CheckedArithmetic  // 0.8 subtraction below zero
    | TransferFailed     // the token refuses to move more than the vault holds

  datatype Event =
    | DepositedEvent(investor: Address, assets: nat, shares: nat, managed: nat, supply: nat)
    | WithdrawnEvent(investor: Address, shares: nat, assets: nat, managed: nat, supply: nat)
    | PnlAppliedEvent(delta: int, managed: nat, reserve: nat, nav: int)
    | ReserveFundedEvent(from: Address, amount: nat, reserve: nat)
    | TradeRecordedEvent(trade: TradeReport)

  /** What the operator reports of a trade; the block's time is not part of the model. */
  datatype TradeReport = TradeReport(pair: string, isBuy: bool, size: int, price: int, pnl: int)

  /** `balance` is the USDC the token contract holds for the vault. */
  datatype Ledger = Ledger(operator: Address, balance: nat, managed: nat, supply: nat, holdings: map<Address, nat>) {
    function Totals(): VaultState { VaultState(managed, supply) }

    function Reserve(): nat { if balance > managed then balance - managed else 0 }

    function Held(who: Address): nat { Get(holdings, who) }

    function Claim(who: Address): int { BalanceOf(Held(who), Totals()) }

    function ConvertToShares(assets: nat): int {
      if supply == 0 || managed == 0 then assets else assets * supply / managed
    }

    function ConvertToAssets(shares: nat): int {
      if supply == 0 then 0 else shares * managed / supply
    }
  }

  function NewVault(operator: Address): Ledger { Ledger(operator, 0, 0, 0, map[]) }

  datatype Action =
    | Deposit(who: Address, assets: nat)
    | Withdraw(who: Address, shares: nat)
    | FundReserve(who: Address, amount: nat)
    | ApplyPnl(caller: Address, delta: int)
    | RecordTrade(caller: Address, trade: TradeReport)
    | TokenTransfer(amount: nat)  // USDC sent to the vault's address without calling it

  datatype Outcome = Done(after: Ledger, events: seq<Event>) | Reverted(why: Revert)

  function ApplyDeposit(l: Ledger, who: Address, assets: nat): Outcome {
    if assets == 0 then Reverted(ZeroAmount)
    else
      var shares := l.ConvertToShares(assets);
      if shares <= 0 then Reverted(ZeroShares)
      else
        var after := l.(balance := l.balance + assets, managed := l.managed + assets, supply := l.supply + shares,
                        holdings := l.holdings[who := l.Held(who) + shares]);
        Done(after, [DepositedEvent(who, assets, shares, after.managed, after.supply)])
  }

  function ApplyWithdraw(l: Ledger, who: Address, shares: nat): Outcome {
    if shares == 0 then Reverted(ZeroShares)
    else if shares > l.Held(who) then Reverted(InsufficientShares(shares, l.Held(who)))
    else
      var assets := l.ConvertToAssets(shares);
      if shares > l.supply || assets > l.managed || assets < 0 then Reverted(CheckedArithmetic)
      else if assets > l.balance then Reverted(TransferFailed)
      else
        var after := l.(balance := l.balance - assets, managed := l.managed - assets, supply := l.supply - shares,
                        holdings := l.holdings[who := l.Held(who) - shares]);
        Done(after, [WithdrawnEvent(who, shares, assets, after.managed, after.supply)])
  }

  function ApplySettlement(l: Ledger, caller: Address, delta: int): Outcome {
    if caller != l.operator then Reverted(NotOperator)
    else if delta > 0 && l.supply == 0 then Reverted(NoSharesOutstanding)
    else if delta > l.Reserve() then Reverted(ReserveExhausted(delta, l.Reserve()))
    else if -delta > l.managed then Reverted(LossExceedsManagedAssets(-delta, l.managed))
    else
      var after := l.(managed := l.managed + delta);
      Done(after, [PnlAppliedEvent(delta, after.managed, after.Reserve(), NavPerShare(after.Totals()))])
  }

  function Apply(l: Ledger, action: Action): Outcome {
    match action
    case Deposit(who, assets) => ApplyDeposit(l, who, assets)
    case Withdraw(who, shares) => ApplyWithdraw(l, who, shares)
    case FundReserve(who, amount) =>
      if amount == 0 then Reverted(ZeroAmount)
      else
        var after := l.(balance := l.balance + amount);
        Done(after, [ReserveFundedEvent(who, amount, after.Reserve())])
    case ApplyPnl(caller, delta) => ApplySettlement(l, caller, delta)
    case RecordTrade(caller, trade) =>
      if caller != l.operator then Reverted(NotOperator) else Done(l, [TradeRecordedEvent(trade)])
    case TokenTransfer(amount) => Done(l.(balance := l.balance + amount), [])
  }

  function After(l: Ledger, action: Action): Ledger {
    var o := Apply(l, action);
    if o.Done? then o.after else l
  }

  function Emitted(l: Ledger, action: Action): seq<Event> {
    var o := Apply(l, action);
    if o.Done? then o.events else []
  }

  function Run(l: Ledger, actions: seq<Action>): Ledger
    decreases |actions|
  {
    if actions == [] then l else Run(After(l, actions[0]), actions[1..])
  }

  function Log(l: Ledger, actions: seq<Action>): seq<Event>
    decreases |actions|
  {
    if actions == [] then [] else Emitted(l, actions[0]) + Log(After(l, actions[0]), actions[1..])
  }

  // ---------------------------------------------------------------- the contract itself

  class StrategyVault {
    const operator: Address
    var balance: nat
    var totalManagedAssets: nat
    var totalShares: nat
    var sharesOf: map<Address, nat>
    var log: seq<Event>

    function State(): Ledger
      reads this
    {
      Ledger(operator, balance, totalManagedAssets, totalShares, sharesOf)
    }

    /** The call did what `Apply` says: all of it, or nothing. */
    twostate predicate Performed(action: Action, new reverted: Option<Revert>)
      reads this
    {
      match Apply(old(State()), action)
      case Done(after, events) => reverted == None && State() == after && log == old(log) + events
      case Reverted(why) => reverted == Some(why) && State() == old(State()) && log == old(log)
    }

    constructor (operator: Address)
      ensures State() == NewVault(operator) && log == []
    {
      this.operator := operator;
      balance, totalManagedAssets, totalShares := 0, 0, 0;
      sharesOf := map[];
      log := [];
    }

    function ReserveView(): nat
      reads this
    {
      if balance > totalManagedAssets then balance - totalManagedAssets else 0
    }

    method Deposit(sender: Address, assets: nat) returns (reverted: Option<Revert>)
      modifies this
      ensures Performed(Action.Deposit(sender, assets), reverted)
    {
      if assets == 0 {
        return Some(ZeroAmount);
      }
      var shares: int := assets;
      if totalShares != 0 && totalManagedAssets != 0 {
        shares := assets * totalShares / totalManagedAssets;
      }
      if shares <= 0 {
        return Some(ZeroShares);
      }
      balance := balance + assets;
      totalManagedAssets := totalManagedAssets + assets;
      totalShares := totalShares + shares;
      sharesOf := sharesOf[sender := Get(sharesOf, sender) + shares];
      log := log + [DepositedEvent(sender, assets, shares, totalManagedAssets, totalShares)];
      return None;
    }

    method Withdraw(sender: Address, shares: nat) returns (reverted: Option<Revert>)
      modifies this
      ensures Performed(Action.Withdraw(sender, shares), reverted)
    {
      if shares == 0 {
        return Some(ZeroShares);
      }
      var held := Get(sharesOf, sender);
      if shares > held {
        return Some(InsufficientShares(shares, held));
      }
      var assets: int := 0;
      if totalShares != 0 {
        assets := shares * totalManagedAssets / totalShares;
      }
      if shares > totalShares || assets > totalManagedAssets || assets < 0 {
        return Some(CheckedArithmetic);
      }
      if assets > balance {
        return Some(TransferFailed);
      }
      sharesOf := sharesOf[sender := held - shares];
      totalShares := totalShares - shares;
      totalManagedAssets := totalManagedAssets - assets;
      balance := balance - assets;
      log := log + [WithdrawnEvent(sender, shares, assets, totalManagedAssets, totalShares)];
      return None;
    }

    method FundReserve(sender: Address, amount: nat) returns (reverted: Option<Revert>)
      modifies this
      ensures Performed(Action.FundReserve(sender, amount), reverted)
    {
      if amount == 0 {
        return Some(ZeroAmount);
      }
      balance := balance + amount;
      log := log + [ReserveFundedEvent(sender, amount, ReserveView())];
      return None;
    }

    method ApplyPnl(sender: Address, delta: int) returns (reverted: Option<Revert>)
      modifies this
      ensures Performed(Action.ApplyPnl(sender, delta), reverted)
    {
      if sender != operator {
        return Some(NotOperator);
      }
      if delta > 0 {
        if totalShares == 0 {
          return Some(NoSharesOutstanding);
        }
        var available := ReserveView();
        if delta > available {
          return Some(ReserveExhausted(delta, available));
        }
        totalManagedAssets := totalManagedAssets + delta;
      } else if delta < 0 {
        if -delta > totalManagedAssets {
          return Some(LossExceedsManagedAssets(-delta, totalManagedAssets));
        }
        totalManagedAssets := totalManagedAssets + delta;
      }
      log := log + [PnlAppliedEvent(delta, totalManagedAssets, ReserveView(),
                                    NavPerShare(VaultState(totalManagedAssets, totalShares)))];
      return None;
    }

    method RecordTrade(sender: Address, trade: TradeReport) returns (reverted: Option<Revert>)
      modifies this
      ensures Performed(Action.RecordTrade(sender, trade), reverted)
    {
      if sender != operator {
        return Some(NotOperator);
      }
      log := log + [TradeRecordedEvent(trade)];
      return None;
    }

    /** The token contract credits the vault; the vault itself is not called. */
    method ReceiveTokens(amount: nat)
      modifies this
      ensures Performed(TokenTransfer(amount), None)
    {
      balance := balance + amount;
    }

    method Perform(action: Action) returns (reverted: Option<Revert>)
      modifies this
      ensures Performed(action, reverted)
    {
      match action
      case Deposit(who, assets) => reverted := Deposit(who, assets);
      case Withdraw(who, shares) => reverted := Withdraw(who, shares);
      case FundReserve(who, amount) => reverted := FundReserve(who, amount);
      case ApplyPnl(caller, delta) => reverted := ApplyPnl(caller, delta);
      case RecordTrade(caller, trade) => reverted := RecordTrade(caller, trade);
      case TokenTransfer(amount) =>
        ReceiveTokens(amount);
        reverted := None;
    }

    /** A call whose revert nobody waits for. */
    method Take(action: Action)
      modifies this
      ensures State() == After(old(State()), action) && log == old(log) + Emitted(old(State()), action)
    {
      var reverted := Perform(action);
      assert log + [] == log;
    }

    /** The calls of a run, one after the other. */
    method TakeAll(actions: seq<Action>)
      modifies this
      ensures State() == Run(old(State()), actions) && log == old(log) + Log(old(State()), actions)
      decreases |actions|
    {
      if actions == [] {
        assert log + [] == log;
      } else {
        Take(actions[0]);
        ghost var first := log;
        TakeAll(actions[1..]);
        Associates(old(log), Emitted(old(State()), actions[0]), Log(After(old(State()), actions[0]), actions[1..]));
      }
    }
  }

  // ---------------------------------------------------------------- what every run keeps

  ghost predicate Solvent(l: Ledger) {
    && l.managed <= l.balance
    && l.supply == SumValues(l.holdings)
    && (l.supply == 0 ==> l.managed == 0)
  }

  lemma StepStaysSolvent(l: Ledger, action: Action)
    requires Solvent(l)
    ensures Solvent(After(l, action))
    ensures After(l, action).operator == l.operator
    ensures Apply(l, action).Reverted? ==> Apply(l, action).why !in {CheckedArithmetic, TransferFailed}
  {
    match action
    case Deposit(who, assets) =>
      if Apply(l, action).Done? {
        SumUpdated(l.holdings, who, l.Held(who) + l.ConvertToShares(assets));
      }
    case Withdraw(who, shares) =>
      if 0 < shares <= l.Held(who) {
        ValueWithinSum(l.holdings, who);
        WithdrawKeepsPrice(l.Totals(), shares);
        SumUpdated(l.holdings, who, l.Held(who) - shares);
      }
    case _ =>
  }

  /** In every run of calls: the reserve and the managed assets partition the token balance,
      the supply is the sum of the holdings, and no assets are managed for nobody. */
  lemma {:induction false} RunStaysSolvent(l: Ledger, actions: seq<Action>)
    requires Solvent(l)
    ensures Solvent(Run(l, actions))
    ensures Run(l, actions).managed + Run(l, actions).Reserve() == Run(l, actions).balance
    ensures Run(l, actions).operator == l.operator
    decreases |actions|
  {
    if actions != [] {
      StepStaysSolvent(l, actions[0]);
      RunStaysSolvent(After(l, actions[0]), actions[1..]);
    }
  }

  lemma NewVaultIsSolvent(operator: Address)
    ensures Solvent(NewVault(operator))
  {
  }

  // ---------------------------------------------------------------- claims and redemption

  ghost function Claims(holdings: map<Address, nat>, totals: VaultState): map<Address, nat>
    requires totals.totalShares > 0
  {
    map a | a in holdings :: ClaimOf(holdings[a], totals)
  }

  function ClaimOf(shares: nat, totals: VaultState): nat
    requires totals.totalShares > 0
  {
    DivAtLeast(shares * totals.totalAssets, totals.totalShares, 0);
    shares * totals.totalAssets / totals.totalShares
  }

  lemma AddScaled(c: int, cs: int, h: int, hs: int, assets: int, shares: int)
    requires c * shares <= h * assets && cs * shares <= assets * hs
    ensures (c + cs) * shares <= assets * (h + hs)
  {
    Distribute(c, cs, shares);
    Distribute(h, hs, assets);
  }

  lemma {:induction false} ScaledClaims(holdings: map<Address, nat>, totals: VaultState)
    requires totals.totalShares > 0
    ensures SumValues(Claims(holdings, totals)) * totals.totalShares <= totals.totalAssets * SumValues(holdings)
    decreases |holdings|
  {
    if holdings == map[] {
      assert Claims(holdings, totals) == map[];
    } else {
      var a :| a in holdings;
      var rest := holdings - {a};
      ScaledClaims(rest, totals);
      assert Claims(holdings, totals) - {a} == Claims(rest, totals);
      SumWithout(holdings, a);
      SumWithout(Claims(holdings, totals), a);
      var claim := ClaimOf(holdings[a], totals);
      DivBounds(holdings[a] * totals.totalAssets, totals.totalShares);
      AddScaled(claim, SumValues(Claims(rest, totals)), holdings[a], SumValues(rest), totals.totalAssets, totals.totalShares);
    }
  }

  /** The rounded claims of all investors together never exceed what the vault manages. */
  lemma ClaimsWithinManagedAssets(l: Ledger)
    requires Solvent(l) && l.supply > 0
    ensures forall a <- l.holdings :: Claims(l.holdings, l.Totals())[a] == l.Claim(a)
    ensures SumValues(Claims(l.holdings, l.Totals())) <= l.managed
  {
    ScaledClaims(l.holdings, l.Totals());
    MulCancel(SumValues(Claims(l.holdings, l.Totals())), l.managed, l.supply);
    forall a <- l.holdings ensures Claims(l.holdings, l.Totals())[a] == l.Claim(a) {
      TruncDivOfNat(l.holdings[a] * l.managed, l.supply);
    }
  }

  /** `order` lists every investor who still holds shares, once. */
  ghost predicate ListsHolders(l: Ledger, order: seq<Address>) {
    && (forall i, j :: 0 <= i < j < |order| ==> order[i] != order[j])
    && (forall a :: a in order <==> l.Held(a) > 0)
  }

  /** Everyone in `order` redeems their whole holding, one after the other: the tokens that leave the
      vault each time. */
  function Payouts(l: Ledger, order: seq<Address>): seq<int>
    decreases |order|
  {
    if order == [] then []
    else
      [l.balance - Redeemed(l, order[0]).balance] + Payouts(Redeemed(l, order[0]), order[1..])
  }

  function AllRedeemed(l: Ledger, order: seq<Address>): Ledger
    decreases |order|
  {
    if order == [] then l else AllRedeemed(Redeemed(l, order[0]), order[1..])
  }

  function Redeemed(l: Ledger, who: Address): Ledger {
    After(l, Withdraw(who, l.Held(who)))
  }

  /** A full redemption goes through and pays the redeemer's claim, in tokens and out of what is managed. */
  lemma RedeemOne(l: Ledger, who: Address)
    requires Solvent(l) && l.Held(who) > 0
    ensures ApplyWithdraw(l, who, l.Held(who)).Done? && Solvent(Redeemed(l, who))
    ensures l.balance - Redeemed(l, who).balance == l.managed - Redeemed(l, who).managed == l.Claim(who)
    ensures forall b :: Redeemed(l, who).Held(b) == if b == who then 0 else l.Held(b)
  {
    ValueWithinSum(l.holdings, who);
    StepStaysSolvent(l, Withdraw(who, l.Held(who)));
    TruncDivOfNat(l.Held(who) * l.managed, l.supply);
    WithdrawKeepsPrice(l.Totals(), l.Held(who));
  }

  /** ... and leaves everyone else's claim at least as large. */
  lemma RedeemingSparesOthers(l: Ledger, who: Address, other: Address)
    requires Solvent(l) && l.Held(who) > 0 && other != who
    ensures Redeemed(l, who).Claim(other) >= l.Claim(other)
  {
    RedeemOne(l, who);
    if l.Held(other) > 0 {
      ValueWithinSum(l.holdings, who);
      ValueWithinSum(Redeemed(l, who).holdings, other);
      WithdrawKeepsPrice(l.Totals(), l.Held(who));
      ClaimFollowsPrice(Redeemed(l, who).Totals(), l.Totals(), l.Held(other));
    } else {
      ClaimOfNothing(l, other);
      ClaimOfNothing(Redeemed(l, who), other);
    }
  }

  lemma ClaimOfNothing(l: Ledger, who: Address)
    requires l.Held(who) == 0
    ensures l.Claim(who) == 0
  {
  }

  lemma {:induction false} NobodyHolds(m: map<Address, nat>)
    requires forall a :: Get(m, a) == 0
    ensures SumValues(m) == 0
    decreases |m|
  {
    if m != map[] {
      var a :| a in m;
      SumWithout(m, a);
      forall b ensures Get(m - {a}, b) == 0 { assert Get(m, b) == 0; }
      assert Get(m, a) == 0;
      NobodyHolds(m - {a});
    }
  }

  /** If everyone redeems, in any order, each is paid at least the claim they had before the
      first one left, and together they are paid exactly the managed assets: the reserve is left. */
  lemma {:induction false} EveryoneRedeems(l: Ledger, order: seq<Address>)
    requires Solvent(l) && ListsHolders(l, order)
    ensures |Payouts(l, order)| == |order|
    ensures forall i :: 0 <= i < |order| ==> Payouts(l, order)[i] >= l.Claim(order[i])
    ensures Sum(Payouts(l, order)) == l.managed
    ensures var left := AllRedeemed(l, order); left.managed == left.supply == 0 && left.balance == l.Reserve()
    decreases |order|
  {
    if order == [] {
      forall a ensures Get(l.holdings, a) == 0 { assert !(l.Held(a) > 0) by { assert a !in order; } }
      NobodyHolds(l.holdings);
    } else {
      var who, rest := order[0], order[1..];
      assert who in order;
      RedeemOne(l, who);
      RestListsHolders(l, order);
      EveryoneRedeems(Redeemed(l, who), rest);
      LaterPayouts(l, order, Payouts(Redeemed(l, who), rest));
      assert Payouts(l, order) == [l.balance - Redeemed(l, who).balance] + Payouts(Redeemed(l, who), rest);
    }
  }

  lemma LaterPayouts(l: Ledger, order: seq<Address>, paid: seq<int>)
    requires Solvent(l) && ListsHolders(l, order) && order != [] && |paid| == |order| - 1
    requires forall j :: 0 <= j < |paid| ==> paid[j] >= Redeemed(l, order[0]).Claim(order[1..][j])
    ensures forall j :: 0 <= j < |paid| ==> paid[j] >= l.Claim(order[1..][j])
  {
    assert order[0] in order;
    forall j | 0 <= j < |paid| ensures paid[j] >= l.Claim(order[1..][j]) {
      RedeemingSparesOthers(l, order[0], order[1..][j]);
    }
  }

  lemma RestListsHolders(l: Ledger, order: seq<Address>)
    requires Solvent(l) && ListsHolders(l, order) && order != []
    ensures ListsHolders(Redeemed(l, order[0]), order[1..])
  {
    var who, rest := order[0], order[1..];
    assert who in order;
    RedeemOne(l, who);
    forall a ensures a in rest <==> Redeemed(l, who).Held(a) > 0 {
      assert a in order <==> a == who || a in rest;
    }
  }

  // ---------------------------------------------------------------- between settlements

  /** Calls that leave `who`'s shares alone and settle nothing. */
  predicate ByOthers(actions: seq<Action>, who: Address) {
    forall a <- actions :: !a.ApplyPnl? && !(a.Withdraw? && a.who == who)
  }

  lemma StepKeepsPrice(l: Ledger, action: Action)
    requires Solvent(l) && l.supply > 0 && !action.ApplyPnl?
    ensures PriceAtLeast(After(l, action).Totals(), l.Totals())
  {
    match action
    case Deposit(who, assets) =>
      if Apply(l, action).Done? {
        DepositKeepsPrice(l.Totals(), assets);
      }
    case Withdraw(who, shares) =>
      if Apply(l, action).Done? {
        WithdrawKeepsPrice(l.Totals(), shares);
      }
    case _ =>
  }

  lemma StepKeepsHolding(l: Ledger, action: Action, who: Address)
    requires !(action.Withdraw? && action.who == who)
    ensures After(l, action).Held(who) >= l.Held(who)
  {
  }

  /** Between two settlements the exact price of a share never falls while shares remain, so
      no sequence of deposits and withdrawals by others makes a holder's claim smaller. */
  lemma {:induction false} OthersNeverDilute(l: Ledger, actions: seq<Action>, who: Address)
    requires Solvent(l) && l.Held(who) > 0 && ByOthers(actions, who)
    ensures Run(l, actions).supply > 0
    ensures PriceAtLeast(Run(l, actions).Totals(), l.Totals())
    ensures Run(l, actions).Claim(who) >= l.Claim(who)
    decreases |actions|
  {
    ValueWithinSum(l.holdings, who);
    if actions != [] {
      assert actions[0] in actions;
      var next := After(l, actions[0]);
      StepKeepsPrice(l, actions[0]);
      StepKeepsHolding(l, actions[0], who);
      StepStaysSolvent(l, actions[0]);
      ValueWithinSum(next.holdings, who);
      OthersNeverDilute(next, actions[1..], who);
      PriceTransitive(l.Totals(), next.Totals(), Run(l, actions).Totals());
      ClaimFollowsPrice(next.Totals(), l.Totals(), l.Held(who));
      LargerHoldingLargerClaim(next.Totals(), l.Held(who), next.Held(who));
    }
  }

  lemma LargerHoldingLargerClaim(totals: VaultState, fewer: nat, more: nat)
    requires totals.totalShares > 0 && fewer <= more
    ensures BalanceOf(fewer, totals) <= BalanceOf(more, totals)
  {
    MulMonotone(fewer, more, totals.totalAssets);
    DivMonotone(fewer * totals.totalAssets, more * totals.totalAssets, totals.totalShares);
    TruncDivOfNat(fewer * totals.totalAssets, totals.totalShares);
    TruncDivOfNat(more * totals.totalAssets, totals.totalShares);
  }

  // ---------------------------------------------------------------- agreement with the TypeScript

  /** The contract mints what `defaultOnDeposit` says, except that it refuses a deposit too small
      to buy a share, where the TypeScript mints none for it. */
  lemma DepositAgreesWithTypeScript(l: Ledger, who: Address, assets: nat)
    ensures var ts, chain := OnDeposit(l.Totals(), assets), ApplyDeposit(l, who, assets);
            && (chain.Done? <==> ts.Ok? && ts.value.shares > 0)
            && (chain.Done? ==> chain.after.Totals() == Deposited(l.Totals(), ts.value))
            && (chain.Done? ==> chain.after.Held(who) == l.Held(who) + ts.value.shares)
            && (ts.Ok? && ts.value.shares <= 0 ==> chain == Reverted(ZeroShares))
  {
  }

  lemma RunOfOne(l: Ledger, a: Action)
    ensures Run(l, [a]) == After(l, a)
  {
    assert [a][1..] == [];
  }

  lemma RunOfTwo(l: Ledger, a: Action, b: Action)
    ensures Run(l, [a, b]) == After(After(l, a), b)
  {
    assert [a, b][1..] == [b];
    RunOfOne(After(l, a), b);
  }

  lemma LogOfTwo(l: Ledger, a: Action, b: Action)
    ensures Log(l, [a, b]) == Emitted(l, a) + Emitted(After(l, a), b)
  {
    assert [a, b][1..] == [b] && [b][1..] == [];
    assert Log(After(l, a), [b]) == Emitted(After(l, a), b) + Log(After(After(l, a), b), []);
  }

  lemma RunOfThree(l: Ledger, a: Action, b: Action, c: Action)
    ensures Run(l, [a, b, c]) == After(After(After(l, a), b), c)
  {
    assert [a, b, c][1..] == [b, c];
    RunOfTwo(After(l, a), b, c);
  }

  /** A deposit too small to buy a share can be met in a vault that began empty: five base units
      where one share is worth eleven. The TypeScript takes them for nothing; the contract reverts. */
  lemma DustDepositIsReachable(operator: Address)
    ensures var l := Run(NewVault(operator), [FundReserve(3, 10), Deposit(1, 1), ApplyPnl(operator, 10)]);
            && l.managed == 11 && l.supply == 1
            && OnDeposit(l.Totals(), 5) == Ok(AccountingResult(0, 5))
            && ApplyDeposit(l, 2, 5) == Reverted(ZeroShares)
  {
    RunOfThree(NewVault(operator), FundReserve(3, 10), Deposit(1, 1), ApplyPnl(operator, 10));
    assert After(NewVault(operator), FundReserve(3, 10)) == Ledger(operator, 10, 0, 0, map[]);
    assert After(Ledger(operator, 10, 0, 0, map[]), Deposit(1, 1)) == Ledger(operator, 11, 1, 1, map[1 := 1]);
  }

  /** A vault can be wiped out under its holders, and the next depositor then shares with them: half
      of a deposit as large as theirs was is gone at once. */
  lemma WipeOutIsReachable(operator: Address)
    ensures var l := Run(NewVault(operator), [Deposit(1, 100), ApplyPnl(operator, -100)]);
            && l.managed == 0 && l.supply == 100 && l.Held(1) == 100
            && ApplyDeposit(l, 2, 100).Done?
            && RoundTrip(l.Totals(), 100) == 50 && !LossWithinOneShare(l.Totals(), 100)
            && ApplyDeposit(l, 2, 100).after.Claim(1) == 50
  {
    RunOfTwo(NewVault(operator), Deposit(1, 100), ApplyPnl(operator, -100));
    assert After(NewVault(operator), Deposit(1, 100)) == Ledger(operator, 100, 100, 100, map[1 := 100]);
  }

  lemma WithdrawAgreesWithTypeScript(l: Ledger, who: Address, shares: nat)
    requires Solvent(l)
    ensures var ts, chain := OnWithdraw(l.Totals(), shares), ApplyWithdraw(l, who, shares);
            && (chain.Done? <==> ts.Ok? && shares <= l.Held(who))
            && (chain.Done? ==> chain.after.managed == l.managed - ts.value.assets)
            && (chain.Done? ==> chain.after.supply == l.supply - shares)
  {
    ValueWithinSum(l.holdings, who);
    StepStaysSolvent(l, Withdraw(who, shares));
  }

  // ---------------------------------------------------------------- conservation

  function Moved(e: Event): int {
    match e
    case DepositedEvent(_, assets, _, _, _) => assets
    case WithdrawnEvent(_, _, assets, _, _) => 0 - assets
    case PnlAppliedEvent(delta, _, _, _) => delta
    case _ => 0
  }

  function NetMoved(log: seq<Event>): int {
    if log == [] then 0 else NetMoved(log[..|log| - 1]) + Moved(log[|log| - 1])
  }

  lemma {:induction false} NetMovedAppend(a: seq<Event>, b: seq<Event>)
    ensures NetMoved(a + b) == NetMoved(a) + NetMoved(b)
    decreases |b|
  {
    if b == [] {
      assert a + b == a;
    } else {
      var last := |b| - 1;
      assert (a + b)[..|a| + last] == a + b[..last];
      NetMovedAppend(a, b[..last]);
    }
  }

  lemma StepMoves(l: Ledger, action: Action)
    ensures After(l, action).managed == l.managed + NetMoved(Emitted(l, action))
  {
    var emitted := Emitted(l, action);
    assert emitted == [] || (|emitted| == 1 && emitted[..0] == []);
  }

  /** What a vault manages is what its log says went in, came out and was settled. */
  lemma {:induction false} ManagedIsNetOfLog(l: Ledger, actions: seq<Action>)
    ensures Run(l, actions).managed == l.managed + NetMoved(Log(l, actions))
    decreases |actions|
  {
    if actions != [] {
      StepMoves(l, actions[0]);
      ManagedIsNetOfLog(After(l, actions[0]), actions[1..]);
      NetMovedAppend(Emitted(l, actions[0]), Log(After(l, actions[0]), actions[1..]));
    }
  }

  /** What an event says of the tokens: paid in, paid out, or not moved at all. */
  function Paid(e: Event): int {
    match e
    case DepositedEvent(_, assets, _, _, _) => assets
    case WithdrawnEvent(_, _, assets, _, _) => 0 - assets
    case ReserveFundedEvent(_, amount, _) => amount
    case _ => 0
  }

  function NetPaid(log: seq<Event>): int {
    if log == [] then 0 else NetPaid(log[..|log| - 1]) + Paid(log[|log| - 1])
  }

  /** Tokens sent to the vault past its calls, of which no event tells. */
  function SentPast(actions: seq<Action>): nat {
    if actions == [] then 0 else SentPast(actions[1..]) + if actions[0].TokenTransfer? then actions[0].amount else 0
  }

  lemma {:induction false} NetPaidAppend(a: seq<Event>, b: seq<Event>)
    ensures NetPaid(a + b) == NetPaid(a) + NetPaid(b)
    decreases |b|
  {
    if b == [] {
      assert a + b == a;
    } else {
      var last := |b| - 1;
      assert (a + b)[..|a| + last] == a + b[..last];
      NetPaidAppend(a, b[..last]);
    }
  }

  lemma StepPays(l: Ledger, action: Action)
    ensures After(l, action).balance
            == l.balance + NetPaid(Emitted(l, action)) + if action.TokenTransfer? then action.amount else 0
  {
    var emitted := Emitted(l, action);
    assert emitted == [] || (|emitted| == 1 && emitted[..0] == []);
  }

  /** The tokens a vault holds are what its log says was paid in, less what was paid out, and what was
      sent past it; a settlement moves none. */
  lemma {:induction false} BalanceIsNetOfLog(l: Ledger, actions: seq<Action>)
    ensures Run(l, actions).balance == l.balance + NetPaid(Log(l, actions)) + SentPast(actions)
    decreases |actions|
  {
    if actions != [] {
      StepPays(l, actions[0]);
      BalanceIsNetOfLog(After(l, actions[0]), actions[1..]);
      NetPaidAppend(Emitted(l, actions[0]), Log(After(l, actions[0]), actions[1..]));
    }
  }

  /** One list of calls after another. */
  lemma {:induction false} RunsApart(l: Ledger, a: seq<Action>, b: seq<Action>)
    ensures Run(l, a + b) == Run(Run(l, a), b)
    ensures Log(l, a + b) == Log(l, a) + Log(Run(l, a), b)
    decreases |a|
  {
    if a == [] {
      assert a + b == b;
    } else {
      assert (a + b)[0] == a[0] && (a + b)[1..] == a[1..] + b;
      RunsApart(After(l, a[0]), a[1..], b);
      Associates(Emitted(l, a[0]), Log(After(l, a[0]), a[1..]), Log(Run(l, a), b));
    }
  }

  // ---------------------------------------------------------------- what a revert says

  /** A revert names what is wrong with the call, with the figures that show it: the caller before the
      amounts, an amount of zero before what it would buy, and the reserve and the managed assets that
      were too small. A solvent vault has no other reasons. */
  predicate SaysWhy(l: Ledger, action: Action, why: Revert) {
    match action
    case Deposit(_, assets) =>
      if assets == 0 then why == ZeroAmount
      else why == ZeroShares && l.supply > 0 && l.managed > 0 && assets * l.supply < l.managed
    case Withdraw(who, shares) =>
      if shares == 0 then why == ZeroShares
      else why == InsufficientShares(shares, l.Held(who)) && shares > l.Held(who)
    case FundReserve(_, amount) => why == ZeroAmount && amount == 0
    case ApplyPnl(caller, delta) =>
      if caller != l.operator then why == NotOperator
      else if delta > 0 then
        if l.supply == 0 then why == NoSharesOutstanding
        else why == ReserveExhausted(delta, l.Reserve()) && l.Reserve() < delta
      else why == LossExceedsManagedAssets(-delta, l.managed) && l.managed < -delta
    case RecordTrade(caller, _) => why == NotOperator && caller != l.operator
    case TokenTransfer(_) => false
  }

  lemma RevertSaysWhy(l: Ledger, action: Action)
    requires Solvent(l) && Apply(l, action).Reverted?
    ensures SaysWhy(l, action, Apply(l, action).why)
  {
    StepStaysSolvent(l, action);
    if action.Deposit? && action.assets > 0 && l.supply > 0 && l.managed > 0 {
      DivBounds(action.assets * l.supply, l.managed);
    }
  }

  /** The other way round: what is not so refused goes through. */
  lemma RefusedIff(l: Ledger, action: Action)
    requires Solvent(l)
    ensures Apply(l, action).Reverted? <==> exists why :: SaysWhy(l, action, why)
  {
    if Apply(l, action).Reverted? {
      RevertSaysWhy(l, action);
    } else {
      forall why ensures !SaysWhy(l, action, why) {
        if action.Deposit? && action.assets > 0 && l.supply > 0 && l.managed > 0 {
          DivBounds(action.assets * l.supply, l.managed);
        }
      }
    }
  }

  /** The claim of the TypeScript is the conversion of the contract. */
  lemma ClaimIsConverted(l: Ledger, who: Address)
    ensures l.Claim(who) == l.ConvertToAssets(l.Held(who))
  {
    TruncDivOfNat(l.Held(who) * l.managed, if l.supply == 0 then 1 else l.supply);
  }

  // ---------------------------------------------------------------- who may do what

  /** The operator's settlement goes through exactly if it leaves a solvent vault. */
  lemma SettledIffSolventAfter(l: Ledger, delta: int)
    requires Solvent(l)
    ensures Apply(l, ApplyPnl(l.operator, delta)).Done? <==>
            0 <= l.managed + delta && Solvent(l.(managed := l.managed + delta))
  {
  }

  predicate ByStrangers(actions: seq<Action>, operator: Address) {
    forall a <- actions :: (a.ApplyPnl? || a.RecordTrade?) ==> a.caller != operator
  }

  /** Whatever is called by anyone but the operator, nothing is settled and no trade is reported; what
      is managed moves with deposits and redemptions alone. */
  lemma {:induction false} StrangersSettleNothing(l: Ledger, actions: seq<Action>)
    requires ByStrangers(actions, l.operator)
    ensures forall e <- Log(l, actions) :: !e.PnlAppliedEvent? && !e.TradeRecordedEvent?
    ensures forall a <- actions :: a.ApplyPnl? || a.RecordTrade? ==> Apply(l, a) == Reverted(NotOperator)
    decreases |actions|
  {
    forall a | a in actions && (a.ApplyPnl? || a.RecordTrade?) ensures Apply(l, a) == Reverted(NotOperator) {
    }
    if actions != [] {
      assert actions[0] in actions;
      StrangersSettleNothing(After(l, actions[0]), actions[1..]);
    }
  }

  // ---------------------------------------------------------------- what the events report

  /** An event carries the totals of the ledger it leaves. */
  predicate Reports(e: Event, l: Ledger) {
    match e
    case DepositedEvent(_, _, _, managed, supply) => managed == l.managed && supply == l.supply
    case WithdrawnEvent(_, _, _, managed, supply) => managed == l.managed && supply == l.supply
    case PnlAppliedEvent(_, managed, reserve, nav) =>
      managed == l.managed && reserve == l.Reserve() && nav == NavPerShare(l.Totals())
    case ReserveFundedEvent(_, _, reserve) => reserve == l.Reserve()
    case TradeRecordedEvent(_) => true
  }

  predicate ReportedAfter(e: Event, l: Ledger, actions: seq<Action>, k: nat) {
    0 < k <= |actions| && Reports(e, Run(l, actions[..k])) && e in Emitted(Run(l, actions[..k - 1]), actions[k - 1])
  }

  lemma RunOneMore(l: Ledger, actions: seq<Action>, k: nat)
    requires 0 < k <= |actions|
    ensures Run(After(l, actions[0]), actions[1..][..k - 1]) == Run(l, actions[..k])
  {
    assert actions[..k][1..] == actions[1..][..k - 1];
  }

  /** Every event of a run was emitted by one of its calls, and reports the ledger which that call left. */
  lemma {:induction false} EventsReportTheLedger(l: Ledger, actions: seq<Action>, e: Event) returns (k: nat)
    requires e in Log(l, actions)
    ensures ReportedAfter(e, l, actions, k)
    decreases |actions|
  {
    if e in Emitted(l, actions[0]) {
      k := 1;
      assert actions[..1] == [actions[0]] && actions[..0] == [];
      RunOfOne(l, actions[0]);
    } else {
      var j := EventsReportTheLedger(After(l, actions[0]), actions[1..], e);
      k := j + 1;
      RunOneMore(l, actions, k);
      if j > 0 {
        RunOneMore(l, actions, j);
      }
    }
  }
}
