/** The share accounting of shared/strategy-contract.ts and backend/src/lib/shares.ts. */
module ShareMath {
  import opened Arithmetic
  import opened Collections

  const INITIAL_SHARE_PRICE := 1_000_000

  datatype VaultState = VaultState(totalAssets: nat, totalShares: nat)

  datatype AccountingResult = AccountingResult(shares: int, assets: int)

  datatype AccountingError = DepositNotPositive | WithdrawalNotPositive | WithdrawalExceedsShares

  /** `shares` is signed: a position rebuilt from an incomplete record can be negative, and
      BigInt division then rounds the claim toward zero. */
  function BalanceOf(shares: int, vault: VaultState): int {
    if vault.totalShares == 0 then 0 else TruncDiv(shares * vault.totalAssets, vault.totalShares)
  }

  function OnDeposit(vault: VaultState, assets: int): Result<AccountingResult, AccountingError> {
    if assets <= 0 then Err(DepositNotPositive)
    else
      var shares :=
        if vault.totalShares == 0 || vault.totalAssets == 0 then assets
        else assets * vault.totalShares / vault.totalAssets;
      Ok(AccountingResult(shares, assets))
  }

  function OnWithdraw(vault: VaultState, shares: int): Result<AccountingResult, AccountingError> {
    if shares <= 0 then Err(WithdrawalNotPositive)
    else if shares > vault.totalShares then Err(WithdrawalExceedsShares)
    else Ok(AccountingResult(shares, shares * vault.totalAssets / vault.totalShares))
  }

  function NavPerShare(vault: VaultState): int {
    if vault.totalShares == 0 then INITIAL_SHARE_PRICE
    else vault.totalAssets * INITIAL_SHARE_PRICE / vault.totalShares
  }

  /** The exact price of a share in `after` is at least the one in `before`, cross-multiplied. */
  predicate PriceAtLeast(after: VaultState, before: VaultState) {
    after.totalAssets * before.totalShares >= before.totalAssets * after.totalShares
  }

  function Deposited(vault: VaultState, a: AccountingResult): VaultState
    requires a.shares >= 0 && a.assets >= 0
  {
    VaultState(vault.totalAssets + a.assets, vault.totalShares + a.shares)
  }

  lemma PriceTransitive(a: VaultState, b: VaultState, c: VaultState)
    requires PriceAtLeast(b, a) && PriceAtLeast(c, b) && b.totalShares > 0
    ensures PriceAtLeast(c, a)
  {
    RatioTransitive(a.totalAssets, a.totalShares, b.totalAssets, b.totalShares, c.totalAssets, c.totalShares);
  }

  /** A higher exact price is a claim no smaller, for any holding. */
  lemma ClaimFollowsPrice(after: VaultState, before: VaultState, shares: nat)
    requires PriceAtLeast(after, before) && before.totalShares > 0 && after.totalShares > 0
    ensures BalanceOf(shares, after) >= BalanceOf(shares, before)
  {
    var was := shares * before.totalAssets / before.totalShares;
    DivBounds(shares * before.totalAssets, before.totalShares);
    // was / shares <= M / S <= M' / S'
    RatioTransitive(was, shares, before.totalAssets, before.totalShares, after.totalAssets, after.totalShares);
    DivAtLeast(shares * after.totalAssets, after.totalShares, was);
    TruncDivOfNat(shares * after.totalAssets, after.totalShares);
    TruncDivOfNat(shares * before.totalAssets, before.totalShares);
  }

  /** Minting rounds down, so a deposit never lowers the exact share price. */
  lemma DepositKeepsPrice(vault: VaultState, assets: int)
    requires OnDeposit(vault, assets).Ok?
    ensures OnDeposit(vault, assets).value.shares >= 0
    ensures vault.totalShares > 0 ==> PriceAtLeast(Deposited(vault, OnDeposit(vault, assets).value), vault)
  {
    if vault.totalShares > 0 && vault.totalAssets > 0 {
      var minted := assets * vault.totalShares / vault.totalAssets;
      assert assets * vault.totalShares >= 0;
      DivAtLeast(assets * vault.totalShares, vault.totalAssets, 0);
      DivBounds(assets * vault.totalShares, vault.totalAssets);
      Distribute(vault.totalAssets, assets, vault.totalShares);
      assert vault.totalAssets * (vault.totalShares + minted) == vault.totalAssets * vault.totalShares + minted * vault.totalAssets;
    }
  }

  /** Paying out rounds down, so a withdrawal leaves assets worth at least the shares that stay. */
  lemma WithdrawKeepsPrice(vault: VaultState, shares: int)
    requires OnWithdraw(vault, shares).Ok?
    ensures var paid := OnWithdraw(vault, shares).value.assets;
            && 0 <= paid <= vault.totalAssets
            && PriceAtLeast(VaultState(vault.totalAssets - paid, vault.totalShares - shares), vault)
            && (shares == vault.totalShares ==> paid == vault.totalAssets)
  {
    var paid := shares * vault.totalAssets / vault.totalShares;
    assert shares * vault.totalAssets >= 0;
    DivAtLeast(shares * vault.totalAssets, vault.totalShares, 0);
    DivBounds(shares * vault.totalAssets, vault.totalShares);
    MulMonotone(shares, vault.totalShares, vault.totalAssets);
    assert vault.totalShares * vault.totalAssets == vault.totalAssets * vault.totalShares;
    assert paid * vault.totalShares <= vault.totalAssets * vault.totalShares;
    MulCancel(paid, vault.totalAssets, vault.totalShares);
    Distribute(vault.totalAssets, paid, vault.totalShares);
    assert vault.totalAssets * (vault.totalShares - shares) == vault.totalAssets * vault.totalShares - shares * vault.totalAssets;
    if shares == vault.totalShares {
      DivAtLeast(shares * vault.totalAssets, vault.totalShares, vault.totalAssets);
    }
  }

  /** What comes back when the shares minted for `assets` are redeemed at once. */
  function RoundTrip(vault: VaultState, assets: int): int
    requires OnDeposit(vault, assets).Ok? && OnDeposit(vault, assets).value.shares > 0
  {
    var minted := OnDeposit(vault, assets).value;
    OnWithdraw(Deposited(vault, minted), minted.shares).value.assets
  }

  /** Loses less than M / (S + s) + 1 base units, with the fraction multiplied out. */
  predicate LossWithinOneShare(vault: VaultState, assets: int)
    requires OnDeposit(vault, assets).Ok? && OnDeposit(vault, assets).value.shares > 0
  {
    var supply := vault.totalShares + OnDeposit(vault, assets).value.shares;
    (assets - RoundTrip(vault, assets) - 1) * supply < vault.totalAssets
  }

  /** Depositing and redeeming at once returns at most what went in exactly when no assets were
      stranded without shares, and loses less than M / (S + s) + 1 exactly when the vault was not
      wiped out under its holders: with shares but no assets a deposit mints one to one, and the
      holders take a cut of it. */
  lemma RoundTripLoss(vault: VaultState, assets: int)
    requires OnDeposit(vault, assets).Ok? && OnDeposit(vault, assets).value.shares > 0
    ensures RoundTrip(vault, assets) <= assets <==> !(vault.totalShares == 0 && vault.totalAssets > 0)
    ensures LossWithinOneShare(vault, assets) <==> !(vault.totalAssets == 0 && vault.totalShares > 0)
  {
    var s := OnDeposit(vault, assets).value.shares;
    if vault.totalShares == 0 {
      MintedOneToOne(vault, assets);
    } else if vault.totalAssets == 0 {
      SharedWithHolders(vault, assets);
    } else {
      var supply := vault.totalShares + s;
      var back := RoundTrip(vault, assets);
      DivBounds(s * (vault.totalAssets + assets), supply);
      DivBounds(assets * vault.totalShares, vault.totalAssets);
      var e := assets * vault.totalShares - s * vault.totalAssets;
      assert s * (vault.totalAssets + assets) == assets * supply - e;
      Distribute(assets, 1, supply);
      DivAtMost(s * (vault.totalAssets + assets), supply, assets);
      Distribute(assets, back + 1, supply);
      Distribute(back, 1, supply);
    }
  }

  lemma MintedOneToOne(vault: VaultState, assets: int)
    requires assets > 0 && vault.totalShares == 0
    ensures RoundTrip(vault, assets) == vault.totalAssets + assets
    ensures LossWithinOneShare(vault, assets)
  {
    var n := vault.totalAssets + assets;
    Distribute(n, 1, assets);
    DivAtLeast(assets * n, assets, n);
    DivAtMost(assets * n, assets, n);
    MulMonotone(assets - n - 1, -1, assets);
  }

  lemma SharedWithHolders(vault: VaultState, assets: int)
    requires assets > 0 && vault.totalShares > 0 && vault.totalAssets == 0
    ensures RoundTrip(vault, assets) < assets
    ensures !LossWithinOneShare(vault, assets)
  {
    var supply := vault.totalShares + assets;
    assert assets * supply == assets * vault.totalShares + assets * assets;
    MulMonotone(1, vault.totalShares, assets);
    DivAtMost(assets * assets, supply, assets - 1);
    MulMonotone(0, assets - RoundTrip(vault, assets) - 1, supply);
  }

  /** The quoted price is the claim of one whole share, a USDC before there are any; it is the exact price
      rounded down by less than a base unit. */
  lemma NavIsTheClaimOfAShare(vault: VaultState)
    ensures vault.totalShares == 0 ==> NavPerShare(vault) == 1_000_000
    ensures vault.totalShares > 0 ==> NavPerShare(vault) == BalanceOf(1_000_000, vault)
    ensures vault.totalShares > 0 ==>
              var nav := NavPerShare(vault);
              nav * vault.totalShares <= vault.totalAssets * 1_000_000 < nav * vault.totalShares + vault.totalShares
  {
    if vault.totalShares > 0 {
      TruncDivOfNat(1_000_000 * vault.totalAssets, vault.totalShares);
      DivBounds(vault.totalAssets * 1_000_000, vault.totalShares);
    }
  }

  /** The first deposit mints at that price and leaves it there. */
  lemma FirstDepositAtPar(assets: nat)
    requires assets > 0
    ensures OnDeposit(VaultState(0, 0), assets) == Ok(AccountingResult(assets, assets))
    ensures NavPerShare(VaultState(assets, assets)) == 1_000_000
  {
    Cancels(assets, 1_000_000);
  }

  lemma Cancels(a: int, b: int)
    requires a > 0
    ensures a * b / a == b
  {
    DivBounds(a * b, a);
    var q := a * b / a;
    if q < b {
      MulMonotone(q + 1, b, a);
    } else if q > b {
      MulMonotone(b + 1, q, a);
    }
  }
}
