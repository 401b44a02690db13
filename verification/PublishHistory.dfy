/** What a run of publishing calls writes for good, and where the anchored hash comes from:
    backend/src/strategy/publish.ts. */
module PublishHistory {
  import opened Collections
  import opened Publish

  // ---------------------------------------------------------------- what is never rewritten

  predicate RowKept(a: StrategyRow, b: StrategyRow) {
    && b.hash == a.hash
    && (a.wallet.Some? ==> b.wallet == a.wallet)
    && (a.vault.Some? ==> b.vault == a.vault)
    && (a.live ==> b.live)
    && (forall key <- a.secrets :: key in b.secrets && b.secrets[key] == a.secrets[key])
  }

  predicate RowKeptAt(w: World, w': World, id: StrategyId) {
    id in w.strategies ==> id in w'.strategies && RowKept(w.strategies[id], w'.strategies[id])
  }

  predicate LinkKeptAt(w: World, w': World, sub: SubmissionId) {
    sub in w.submissions ==>
      sub in w'.submissions
      && (w.submissions[sub].strategy.Some? ==> w'.submissions[sub].strategy == w.submissions[sub].strategy)
  }

  predicate ChainKeptAt(w: World, w': World, id: StrategyId, vault: Address) {
    && (id in w.chain.registry ==> id in w'.chain.registry && w'.chain.registry[id] == w.chain.registry[id])
    && (vault in w.chain.operators ==> vault in w'.chain.operators && w'.chain.operators[vault] == w.chain.operators[vault])
  }

  /** Hash, wallet, vault and secrets of a row, the link to it, its registry entry and the operator of a
      vault are written once. */
  ghost predicate WrittenOnce(w: World, w': World) {
    && (forall id :: RowKeptAt(w, w', id))
    && (forall sub :: LinkKeptAt(w, w', sub))
    && (forall id, vault :: ChainKeptAt(w, w', id, vault))
  }

  lemma OwnRowKept(w: World, sub: SubmissionId, c: Call, target: nat)
    requires WorldOk(w) && CallOk(w, sub, c) && Effect(w, sub, c, target).Some?
    ensures RowKeptAt(w, Effect(w, sub, c, target).value.0, Effect(w, sub, c, target).value.1.strategy)
  {
    match c.pc
    case Resolve => NewRowIsNew(w, sub, c);
    case Carry => CarryKeepsRow(w, sub, c);
    case Wallet => FieldsWrittenOnce(w, sub, c);
    case WriteVault => FieldsWrittenOnce(w, sub, c);
    case GoLive => LiveStaysLive(w, sub, c);
    case _ =>
  }

  lemma FieldsWrittenOnce(w: World, sub: SubmissionId, c: Call)
    requires CallOk(w, sub, c)
    ensures c.pc.Wallet? && WalletEffect(w, c).Some? ==> RowKeptAt(w, WalletEffect(w, c).value.0, c.strategy)
    ensures c.pc.WriteVault? && WriteVaultEffect(w, c).Some? ==> RowKeptAt(w, WriteVaultEffect(w, c).value.0, c.strategy)
  {
  }

  lemma LiveStaysLive(w: World, sub: SubmissionId, c: Call)
    ensures GoLiveEffect(w, sub, c).Some? ==> RowKeptAt(w, GoLiveEffect(w, sub, c).value.0, c.strategy)
  {
  }

  lemma NewRowIsNew(w: World, sub: SubmissionId, c: Call)
    requires WorldOk(w) && CallOk(w, sub, c) && c.pc.Resolve? && ResolveEffect(w, sub, c).Some?
    ensures RowKeptAt(w, ResolveEffect(w, sub, c).value.0, ResolveEffect(w, sub, c).value.1.strategy)
    ensures w.nextStrategy !in w.strategies
  {
    forall id <- w.strategies ensures id < w.nextStrategy {
      assert RowOk(w, id);
    }
  }

  lemma CarryKeepsRow(w: World, sub: SubmissionId, c: Call)
    requires CallOk(w, sub, c) && c.pc.Carry? && CarryEffect(w, sub, c).Some?
    ensures RowKeptAt(w, CarryEffect(w, sub, c).value.0, c.strategy)
  {
    MissingIsARow(w.submissions[sub].secrets, w.strategies[c.strategy].secrets);
  }

  lemma OwnLinkKept(w: World, sub: SubmissionId, c: Call, target: nat)
    requires WorldOk(w) && CallOk(w, sub, c) && Effect(w, sub, c, target).Some?
    ensures LinkKeptAt(w, Effect(w, sub, c, target).value.0, sub)
  {
  }

  lemma OwnAnchorKept(w: World, sub: SubmissionId, c: Call, target: nat)
    requires CallOk(w, sub, c) && Effect(w, sub, c, target).Some?
    ensures var w' := Effect(w, sub, c, target).value.0;
            forall id <- w.chain.registry :: id in w'.chain.registry && w'.chain.registry[id] == w.chain.registry[id]
  {
    match c.pc
    case Register => AnchorWrittenOnce(w, c);
    case Resolve => RowsAside(w, sub, c);
    case Wallet => RowsAside(w, sub, c);
    case WriteVault => RowsAside(w, sub, c);
    case Carry => RowsAside(w, sub, c);
    case GoLive => RowsAside(w, sub, c);
    case _ =>
  }

  lemma AnchorWrittenOnce(w: World, c: Call)
    ensures RegisterEffect(w, c).Some?
    ensures var w' := RegisterEffect(w, c).value.0;
            forall id <- w.chain.registry :: id in w'.chain.registry && w'.chain.registry[id] == w.chain.registry[id]
  {
  }

  lemma RowsAside(w: World, sub: SubmissionId, c: Call)
    ensures ResolveEffect(w, sub, c).Some? ==> ResolveEffect(w, sub, c).value.0.chain == w.chain
    ensures WalletEffect(w, c).Some? ==> WalletEffect(w, c).value.0.chain == w.chain
    ensures WriteVaultEffect(w, c).Some? ==> WriteVaultEffect(w, c).value.0.chain == w.chain
    ensures CarryEffect(w, sub, c).Some? ==> CarryEffect(w, sub, c).value.0.chain == w.chain
    ensures GoLiveEffect(w, sub, c).Some? ==> GoLiveEffect(w, sub, c).value.0.chain == w.chain
  {
  }

  lemma EffectWritesOnce(w: World, sub: SubmissionId, c: Call, target: nat)
    requires WorldOk(w) && CallOk(w, sub, c) && Effect(w, sub, c, target).Some?
    ensures WrittenOnce(w, Effect(w, sub, c, target).value.0)
  {
    var (w', c') := Effect(w, sub, c, target).value;
    EffectKeeps(w, sub, c, target);
    assert Touches(w, w', sub, c'.strategy);
    OwnRowKept(w, sub, c, target);
    OwnLinkKept(w, sub, c, target);
    OwnAnchorKept(w, sub, c, target);
    forall id ensures RowKeptAt(w, w', id) {
      assert id != c'.strategy ==> (id in w.strategies ==> w'.strategies[id] == w.strategies[id]);
    }
    forall s ensures LinkKeptAt(w, w', s) {
    }
  }

  lemma StepWritesOnce(m: Machine, step: Step)
    requires Consistent(m)
    ensures WrittenOnce(m.world, Next(m, step).world)
  {
    if step.Advance? && step.sub in m.calls && Effect(m.world, step.sub, m.calls[step.sub], m.reserveTarget).Some? {
      EffectWritesOnce(m.world, step.sub, m.calls[step.sub], m.reserveTarget);
    }
  }

  lemma OnceAndAgain(a: World, b: World, c: World)
    requires WrittenOnce(a, b) && WrittenOnce(b, c)
    ensures WrittenOnce(a, c)
  {
    forall id ensures RowKeptAt(a, c, id) {
      assert RowKeptAt(a, b, id) && RowKeptAt(b, c, id);
    }
    forall sub ensures LinkKeptAt(a, c, sub) {
      assert LinkKeptAt(a, b, sub) && LinkKeptAt(b, c, sub);
    }
    forall id, vault ensures ChainKeptAt(a, c, id, vault) {
      assert ChainKeptAt(a, b, id, vault) && ChainKeptAt(b, c, id, vault);
    }
  }

  /** Through calls, errors, crashes, retries and edits, nothing that was published is rewritten. */
  lemma {:induction false} EveryRunWritesOnce(m: Machine, steps: seq<Step>)
    requires Consistent(m)
    ensures WrittenOnce(m.world, RunSteps(m, steps).world)
    decreases |steps|
  {
    if steps != [] {
      StepIsConsistent(m, steps[0]);
      StepWritesOnce(m, steps[0]);
      EveryRunWritesOnce(Next(m, steps[0]), steps[1..]);
      OnceAndAgain(m.world, Next(m, steps[0]).world, RunSteps(m, steps).world);
    }
  }

  // ---------------------------------------------------------------- top-ups

  /** No vault has a reserve before it is deployed. */
  ghost predicate ReservesOfVaults(w: World) { forall v <- w.chain.reserves :: v < w.nextAddress }

  predicate NotDrawn(w: World, w': World, vault: Address) { Get(w'.chain.reserves, vault) >= Get(w.chain.reserves, vault) }

  lemma StepTopsUp(m: Machine, step: Step)
    requires Consistent(m) && ReservesOfVaults(m.world)
    ensures ReservesOfVaults(Next(m, step).world)
    ensures !step.SpendReserve? ==> forall v :: NotDrawn(m.world, Next(m, step).world, v)
  {
    if step.Advance? && step.sub in m.calls {
      assert CallOk(m.world, step.sub, m.calls[step.sub]);
      CallTopsUp(m.world, step.sub, m.calls[step.sub], m.reserveTarget);
    }
  }

  lemma CallTopsUp(w: World, sub: SubmissionId, c: Call, target: nat)
    requires WorldOk(w) && CallOk(w, sub, c) && ReservesOfVaults(w)
    ensures Effect(w, sub, c, target).Some? ==>
              var w' := Effect(w, sub, c, target).value.0;
              ReservesOfVaults(w') && forall v :: NotDrawn(w, w', v)
  {
    match c.pc
    case Reserve =>
      assert RowOk(w, c.strategy);
    case Resolve => RowsAside(w, sub, c);
    case Wallet => AddressesGrow(w, c);
    case WriteVault => RowsAside(w, sub, c);
    case Carry => RowsAside(w, sub, c);
    case GoLive => RowsAside(w, sub, c);
    case _ =>
  }

  lemma AddressesGrow(w: World, c: Call)
    ensures WalletEffect(w, c).Some? ==>
              WalletEffect(w, c).value.0.chain == w.chain && WalletEffect(w, c).value.0.nextAddress >= w.nextAddress
  {
  }

  predicate NothingSpent(steps: seq<Step>) { forall s <- steps :: !s.SpendReserve? }

  /** Publishing tops a reserve up and never draws it down. */
  lemma {:induction false} ReservesOnlyGrow(m: Machine, steps: seq<Step>, vault: Address)
    requires Consistent(m) && ReservesOfVaults(m.world) && NothingSpent(steps)
    ensures NotDrawn(m.world, RunSteps(m, steps).world, vault)
    decreases |steps|
  {
    if steps != [] {
      assert steps[0] in steps;
      StepIsConsistent(m, steps[0]);
      StepTopsUp(m, steps[0]);
      assert NotDrawn(m.world, Next(m, steps[0]).world, vault);
      ReservesOnlyGrow(Next(m, steps[0]), steps[1..], vault);
    }
  }

  // ---------------------------------------------------------------- whose wallet is whose

  predicate WalletKnown(w: World, id: StrategyId) {
    id in w.strategies && w.strategies[id].wallet.Some? ==>
      w.strategies[id].wallet.value < w.nextAddress && w.strategies[id].wallet.value !in w.chain.operators
  }

  predicate OwnWallet(w: World, a: StrategyId, b: StrategyId) {
    a in w.strategies && b in w.strategies && w.strategies[a].wallet.Some? && w.strategies[a].wallet == w.strategies[b].wallet ==> a == b
  }

  /** Each strategy trades with a wallet of its own, and no wallet is a vault. */
  ghost predicate WalletsApart(w: World) {
    (forall id :: WalletKnown(w, id)) && (forall a, b :: OwnWallet(w, a, b))
  }

  lemma EffectKeepsApart(w: World, sub: SubmissionId, c: Call, target: nat)
    requires WorldOk(w) && CallOk(w, sub, c) && WalletsApart(w) && Effect(w, sub, c, target).Some?
    ensures WalletsApart(Effect(w, sub, c, target).value.0)
  {
    var (w', c') := Effect(w, sub, c, target).value;
    EffectKeeps(w, sub, c, target);
    assert Touches(w, w', sub, c'.strategy);
    assert c'.strategy in w.strategies ==> RowOk(w, c'.strategy);
    forall id ensures WalletKnown(w', id) {
      WalletStaysKnown(w, sub, c, target, id);
    }
    forall a, b ensures OwnWallet(w', a, b) {
      WalletStaysOwn(w, sub, c, target, a, b);
    }
  }

  /** The row kept the wallet it had, or it has just been given the next address for one. */
  predicate WalletAt(w: World, w': World, c: Call, id: StrategyId) {
    id in w'.strategies && w'.strategies[id].wallet.Some? ==>
      || (id in w.strategies && w.strategies[id].wallet == w'.strategies[id].wallet)
      || (c.pc.Wallet? && id == c.strategy && w'.strategies[id].wallet == Some(w.nextAddress)
          && w'.nextAddress > w.nextAddress && w'.chain == w.chain)
  }

  lemma NewWallet(w: World, sub: SubmissionId, c: Call, target: nat, id: StrategyId)
    requires WorldOk(w) && CallOk(w, sub, c) && Effect(w, sub, c, target).Some?
    ensures WalletAt(w, Effect(w, sub, c, target).value.0, c, id)
  {
    match c.pc
    case Resolve => NewRowIsNew(w, sub, c);
    case Wallet => GivenWallet(w, c, id);
    case WriteVault => WalletsAside(w, sub, c, id);
    case Carry => WalletsAside(w, sub, c, id);
    case GoLive => WalletsAside(w, sub, c, id);
    case _ =>
  }

  lemma GivenWallet(w: World, c: Call, id: StrategyId)
    requires c.pc.Wallet? && WalletEffect(w, c).Some?
    ensures WalletAt(w, WalletEffect(w, c).value.0, c, id)
  {
  }

  lemma WalletsAside(w: World, sub: SubmissionId, c: Call, id: StrategyId)
    ensures WriteVaultEffect(w, c).Some? ==> WalletAt(w, WriteVaultEffect(w, c).value.0, c, id)
    ensures CarryEffect(w, sub, c).Some? ==> WalletAt(w, CarryEffect(w, sub, c).value.0, c, id)
    ensures GoLiveEffect(w, sub, c).Some? ==> WalletAt(w, GoLiveEffect(w, sub, c).value.0, c, id)
  {
  }

  lemma WalletStaysKnown(w: World, sub: SubmissionId, c: Call, target: nat, id: StrategyId)
    requires WorldOk(w) && CallOk(w, sub, c) && Effect(w, sub, c, target).Some? && WalletKnown(w, id)
    ensures WalletKnown(Effect(w, sub, c, target).value.0, id)
  {
    NewWallet(w, sub, c, target, id);
    VaultsAreNew(w, sub, c, target);
  }

  lemma VaultsAreNew(w: World, sub: SubmissionId, c: Call, target: nat)
    requires CallOk(w, sub, c) && Effect(w, sub, c, target).Some?
    ensures var w' := Effect(w, sub, c, target).value.0;
            w'.nextAddress >= w.nextAddress && forall v <- w'.chain.operators :: v in w.chain.operators || v == w.nextAddress
  {
    match c.pc
    case Resolve => RowsAside(w, sub, c);
    case Wallet => AddressesGrow(w, c);
    case WriteVault => RowsAside(w, sub, c);
    case Carry => RowsAside(w, sub, c);
    case GoLive => RowsAside(w, sub, c);
    case _ =>
  }

  lemma WalletStaysOwn(w: World, sub: SubmissionId, c: Call, target: nat, a: StrategyId, b: StrategyId)
    requires WorldOk(w) && CallOk(w, sub, c) && Effect(w, sub, c, target).Some?
    requires WalletKnown(w, a) && WalletKnown(w, b) && OwnWallet(w, a, b)
    ensures OwnWallet(Effect(w, sub, c, target).value.0, a, b)
  {
    NewWallet(w, sub, c, target, a);
    NewWallet(w, sub, c, target, b);
  }

  lemma StepKeepsApart(m: Machine, step: Step)
    requires Consistent(m) && WalletsApart(m.world)
    ensures WalletsApart(Next(m, step).world)
  {
    var w, w' := m.world, Next(m, step).world;
    if step.Advance? && step.sub in m.calls && Effect(w, step.sub, m.calls[step.sub], m.reserveTarget).Some? {
      EffectKeepsApart(w, step.sub, m.calls[step.sub], m.reserveTarget);
    } else {
      forall id ensures WalletKnown(w', id) {
        assert WalletKnown(w, id);
      }
      forall a, b ensures OwnWallet(w', a, b) {
        assert OwnWallet(w, a, b);
      }
    }
  }

  lemma {:induction false} EveryRunKeepsApart(m: Machine, steps: seq<Step>)
    requires Consistent(m) && WalletsApart(m.world)
    ensures WalletsApart(RunSteps(m, steps).world)
    decreases |steps|
  {
    if steps != [] {
      StepIsConsistent(m, steps[0]);
      StepKeepsApart(m, steps[0]);
      EveryRunKeepsApart(Next(m, steps[0]), steps[1..]);
    }
  }

  /** In every run no two strategies share an agent wallet, and so no two share a vault either: a vault
      is operated by the wallet of its own strategy and of no other. */
  lemma NoSharedWallets(target: nat, steps: seq<Step>, a: StrategyId, b: StrategyId)
    requires var w := RunSteps(NewMachine(target), steps).world;
             && a in w.strategies && b in w.strategies && a != b
    ensures var w := RunSteps(NewMachine(target), steps).world;
            && (w.strategies[a].wallet.Some? ==> w.strategies[a].wallet != w.strategies[b].wallet)
            && (w.strategies[a].vault.Some? ==> w.strategies[a].vault != w.strategies[b].vault)
  {
    NewMachineIsConsistent(target);
    EveryRunIsConsistent(NewMachine(target), steps);
    EveryRunKeepsApart(NewMachine(target), steps);
    var w := RunSteps(NewMachine(target), steps).world;
    assert RowOk(w, a) && RowOk(w, b) && OwnWallet(w, a, b);
  }

  // ---------------------------------------------------------------- where the hash comes from

  function StateAt(target: nat, steps: seq<Step>, k: nat): Machine
    requires k <= |steps|
  {
    RunSteps(NewMachine(target), steps[..k])
  }

  lemma {:induction false} OneMoreStep(m: Machine, steps: seq<Step>, step: Step)
    ensures RunSteps(m, steps + [step]) == Next(RunSteps(m, steps), step)
    decreases |steps|
  {
    if steps == [] {
      assert ([] + [step])[1..] == [];
    } else {
      OneMoreStep(Next(m, steps[0]), steps[1..], step);
      assert (steps + [step])[1..] == steps[1..] + [step];
    }
  }

  lemma StateAfter(target: nat, steps: seq<Step>, k: nat)
    requires 0 < k <= |steps|
    ensures StateAt(target, steps, k) == Next(StateAt(target, steps, k - 1), steps[k - 1])
    ensures Consistent(StateAt(target, steps, k - 1)) && Consistent(StateAt(target, steps, k))
  {
    assert steps[..k] == steps[..k - 1] + [steps[k - 1]];
    OneMoreStep(NewMachine(target), steps[..k - 1], steps[k - 1]);
    NewMachineIsConsistent(target);
    EveryRunIsConsistent(NewMachine(target), steps[..k - 1]);
    EveryRunIsConsistent(NewMachine(target), steps[..k]);
  }

  predicate InFlight(target: nat, steps: seq<Step>, sub: SubmissionId, i: nat)
    requires i <= |steps|
  {
    sub in StateAt(target, steps, i).calls
  }

  /** The call that is in flight at `k` is the one that the step `j` has begun. */
  ghost predicate BegunAt(target: nat, steps: seq<Step>, sub: SubmissionId, j: nat, k: nat) {
    && j < k <= |steps| && steps[j] == Begin(sub)
    && !InFlight(target, steps, sub, j) && Admitted(StateAt(target, steps, j).world, sub)
    && forall i :: j < i <= k ==> InFlight(target, steps, sub, i)
  }

  lemma CallGoesOn(m: Machine, step: Step, sub: SubmissionId)
    requires Consistent(m) && sub in Next(m, step).calls
    ensures if sub in m.calls then Next(m, step).calls[sub].submission == m.calls[sub].submission
            else step == Begin(sub) && Admitted(m.world, sub) && Next(m, step).calls[sub].submission == m.world.submissions[sub]
  {
    if step.Advance? && step.sub == sub {
      SnapshotIsKept(m.world, sub, m.calls[sub], m.reserveTarget);
    }
  }

  lemma SnapshotIsKept(w: World, sub: SubmissionId, c: Call, target: nat)
    ensures Effect(w, sub, c, target).Some? ==> Effect(w, sub, c, target).value.1.submission == c.submission
  {
  }

  /** A call works on the submission as it was when the call began. */
  lemma {:induction false} SnapshotOfBegin(target: nat, steps: seq<Step>, sub: SubmissionId, k: nat) returns (j: nat)
    requires k <= |steps| && InFlight(target, steps, sub, k)
    ensures BegunAt(target, steps, sub, j, k)
    ensures StateAt(target, steps, k).calls[sub].submission == StateAt(target, steps, j).world.submissions[sub]
  {
    StateAfter(target, steps, k);
    var before := StateAt(target, steps, k - 1);
    CallGoesOn(before, steps[k - 1], sub);
    if sub in before.calls {
      j := SnapshotOfBegin(target, steps, sub, k - 1);
    } else {
      j := k - 1;
    }
  }

  /** Only a call writes a link, and the row it creates has the hash of its snapshot. */
  lemma LinkIsWrittenByItsCall(m: Machine, step: Step, sub: SubmissionId, id: StrategyId)
    requires Consistent(m) && !Linked(m.world, sub, id) && Linked(Next(m, step).world, sub, id)
    ensures step == Advance(sub) && sub in m.calls && m.calls[sub].submission.strategy == None
    ensures id in Next(m, step).world.strategies
    ensures m.calls[sub].submission.hash == Some(Next(m, step).world.strategies[id].hash)
  {
    StepWritesOnce(m, step);
    assert LinkKeptAt(m.world, Next(m, step).world, sub);
    if step.Advance? && step.sub in m.calls && Effect(m.world, step.sub, m.calls[step.sub], m.reserveTarget).Some? {
      EffectKeeps(m.world, step.sub, m.calls[step.sub], m.reserveTarget);
    }
  }

  /** `j` begins the call that creates the strategy of a submission with its step `k`. */
  ghost predicate CreatedBy(target: nat, steps: seq<Step>, sub: SubmissionId, id: StrategyId, j: nat, k: nat) {
    && BegunAt(target, steps, sub, j, k) && k < |steps| && steps[k] == Advance(sub)
    && !Linked(StateAt(target, steps, k).world, sub, id) && Linked(StateAt(target, steps, k + 1).world, sub, id)
  }

  /** In every run the hash of a linked strategy is the one its submission had at the beginning of the
      call that created it, with every check passed, whatever has been edited, retried or lost since. */
  lemma {:induction false} HashOfBegin(target: nat, steps: seq<Step>, sub: SubmissionId, id: StrategyId, n: nat)
    returns (j: nat, k: nat)
    requires n <= |steps| && Linked(StateAt(target, steps, n).world, sub, id)
    ensures CreatedBy(target, steps, sub, id, j, k) && k < n
    ensures id in StateAt(target, steps, n).world.strategies
    ensures StateAt(target, steps, j).world.submissions[sub].checksPassed
    ensures StateAt(target, steps, j).world.submissions[sub].hash == Some(StateAt(target, steps, n).world.strategies[id].hash)
    decreases n
  {
    StateAfter(target, steps, n);
    var before := StateAt(target, steps, n - 1);
    if Linked(before.world, sub, id) {
      j, k := HashOfBegin(target, steps, sub, id, n - 1);
      StepWritesOnce(before, steps[n - 1]);
      assert RowKeptAt(before.world, StateAt(target, steps, n).world, id);
    } else {
      LinkIsWrittenByItsCall(before, steps[n - 1], sub, id);
      k := n - 1;
      j := SnapshotOfBegin(target, steps, sub, k);
    }
  }

  /** And so is the hash that is anchored. */
  lemma AnchoredHashIsTheBegun(target: nat, steps: seq<Step>, sub: SubmissionId, id: StrategyId) returns (j: nat, k: nat)
    requires Linked(StateAt(target, steps, |steps|).world, sub, id) && id in StateAt(target, steps, |steps|).world.chain.registry
    ensures CreatedBy(target, steps, sub, id, j, k)
    ensures StateAt(target, steps, j).world.submissions[sub].checksPassed
    ensures StateAt(target, steps, j).world.submissions[sub].hash == Some(StateAt(target, steps, |steps|).world.chain.registry[id].hash)
  {
    j, k := HashOfBegin(target, steps, sub, id, |steps|);
    StateAfter(target, steps, |steps|);
    assert RowOk(StateAt(target, steps, |steps|).world, id);
  }

  // ---------------------------------------------------------------- the record of what was published

  /** A linked submission is what its strategy was made of, and a call that has yet to make one holds it
      as it stands. */
  predicate RecordAt(w: World, calls: map<SubmissionId, Call>, sub: SubmissionId) {
    sub in w.submissions ==>
      var s := w.submissions[sub];
      && (s.strategy.Some? && s.strategy.value in w.strategies ==> s.checksPassed && s.hash == Some(w.strategies[s.strategy.value].hash))
      && (sub in calls && calls[sub].pc.Resolve? ==> calls[sub].submission == s && s.checksPassed && s.hash.Some?)
  }

  ghost predicate Recorded(m: Machine) { forall sub :: RecordAt(m.world, m.calls, sub) }

  lemma OwnRecord(m: Machine, sub: SubmissionId)
    requires Consistent(m) && sub in m.calls && RecordAt(m.world, m.calls, sub)
    requires Effect(m.world, sub, m.calls[sub], m.reserveTarget).Some?
    ensures var m' := Next(m, Advance(sub)); RecordAt(m'.world, m'.calls, sub)
  {
    var w, c := m.world, m.calls[sub];
    var (w', c') := Effect(w, sub, c, m.reserveTarget).value;
    assert CallOk(w, sub, c) && SubmissionOk(w, sub);
    if c.pc.Resolve? {
      NewRowIsNew(w, sub, c);
    } else {
      SubmissionStays(w, sub, c, m.reserveTarget);
      OwnRowKept(w, sub, c, m.reserveTarget);
      assert RowKeptAt(w, w', c'.strategy);
    }
  }

  lemma SubmissionStays(w: World, sub: SubmissionId, c: Call, target: nat)
    requires sub in w.submissions && !c.pc.Resolve? && Effect(w, sub, c, target).Some?
    ensures var (w', c') := Effect(w, sub, c, target).value;
            && !c'.pc.Resolve? && c'.strategy == c.strategy
            && sub in w'.submissions && SameButLive(w.submissions[sub], w'.submissions[sub])
  {
  }

  predicate SameButLive(a: Submission, b: Submission) {
    b == a.(live := b.live) && (a.live ==> b.live)
  }

  lemma OthersRecord(m: Machine, sub: SubmissionId, other: SubmissionId)
    requires Consistent(m) && sub in m.calls && other != sub && RecordAt(m.world, m.calls, other)
    requires Effect(m.world, sub, m.calls[sub], m.reserveTarget).Some?
    ensures var m' := Next(m, Advance(sub)); RecordAt(m'.world, m'.calls, other)
  {
    var w, w' := m.world, Next(m, Advance(sub)).world;
    assert CallOk(w, sub, m.calls[sub]);
    EffectWritesOnce(w, sub, m.calls[sub], m.reserveTarget);
    EffectKeeps(w, sub, m.calls[sub], m.reserveTarget);
    if other in w.submissions && w.submissions[other].strategy.Some? {
      assert SubmissionOk(w, other);
      assert RowKeptAt(w, w', w.submissions[other].strategy.value);
    }
  }

  lemma StepRecords(m: Machine, step: Step)
    requires Consistent(m) && Recorded(m)
    ensures Recorded(Next(m, step))
  {
    var m' := Next(m, step);
    forall other ensures RecordAt(m'.world, m'.calls, other) {
      assert RecordAt(m.world, m.calls, other);
      if step.Advance? && step.sub in m.calls && Effect(m.world, step.sub, m.calls[step.sub], m.reserveTarget).Some? {
        if other == step.sub {
          OwnRecord(m, other);
        } else {
          OthersRecord(m, step.sub, other);
        }
      }
    }
  }

  lemma {:induction false} EveryRunRecords(m: Machine, steps: seq<Step>)
    requires Consistent(m) && Recorded(m)
    ensures Recorded(RunSteps(m, steps))
    decreases |steps|
  {
    if steps != [] {
      StepIsConsistent(m, steps[0]);
      StepRecords(m, steps[0]);
      EveryRunRecords(Next(m, steps[0]), steps[1..]);
    }
  }

  /** In every run, what is anchored is what was checked: the hash in the registry is the one the
      submission still has on record, with every check passed. */
  lemma AnchoredIsWhatWasChecked(target: nat, steps: seq<Step>, sub: SubmissionId, id: StrategyId)
    requires var w := RunSteps(NewMachine(target), steps).world; Linked(w, sub, id) && id in w.chain.registry
    ensures var w := RunSteps(NewMachine(target), steps).world;
            w.submissions[sub].checksPassed && w.submissions[sub].hash == Some(w.chain.registry[id].hash)
  {
    NewMachineIsConsistent(target);
    EveryRunIsConsistent(NewMachine(target), steps);
    EveryRunRecords(NewMachine(target), steps);
    var m := RunSteps(NewMachine(target), steps);
    assert RecordAt(m.world, m.calls, sub) && SubmissionOk(m.world, sub) && RowOk(m.world, id);
  }

  lemma StepKeepsRecord(m: Machine, step: Step, sub: SubmissionId)
    requires Consistent(m) && sub in m.world.submissions && m.world.submissions[sub].strategy.Some?
    ensures sub in Next(m, step).world.submissions && SameButLive(m.world.submissions[sub], Next(m, step).world.submissions[sub])
  {
    var w := m.world;
    if step.Advance? && step.sub in m.calls && Effect(w, step.sub, m.calls[step.sub], m.reserveTarget).Some? {
      EffectKeeps(w, step.sub, m.calls[step.sub], m.reserveTarget);
      if step.sub == sub && !m.calls[sub].pc.Resolve? {
        SubmissionStays(w, sub, m.calls[sub], m.reserveTarget);
      }
    }
  }

  /** Once it has a strategy a submission stays as it was published, but for going live: nothing that is
      posted, saved or checked afterwards changes it. */
  lemma {:induction false} PublishedStaysAsItWas(m: Machine, steps: seq<Step>, sub: SubmissionId)
    requires Consistent(m) && sub in m.world.submissions && m.world.submissions[sub].strategy.Some?
    ensures var w := RunSteps(m, steps).world; sub in w.submissions && SameButLive(m.world.submissions[sub], w.submissions[sub])
    decreases |steps|
  {
    if steps != [] {
      StepIsConsistent(m, steps[0]);
      StepKeepsRecord(m, steps[0], sub);
      PublishedStaysAsItWas(Next(m, steps[0]), steps[1..], sub);
    }
  }

  // ---------------------------------------------------------------- a call left alone

  /** Created by this call: the snapshot's hash. Found by it: the hash the row had when the call began. */
  ghost predicate RightHash(w0: World, w: World, c: Call) {
    && WrittenOnce(w0, w)
    && (!c.pc.Resolve? ==>
          if c.submission.strategy.Some? then c.strategy == c.submission.strategy.value
          else c.strategy in w.strategies && c.submission.hash == Some(w.strategies[c.strategy].hash))
  }

  lemma EffectHashes(w0: World, w: World, sub: SubmissionId, c: Call, target: nat)
    requires WorldOk(w) && CallOk(w, sub, c) && RightHash(w0, w, c) && Effect(w, sub, c, target).Some?
    ensures var (w', c') := Effect(w, sub, c, target).value; RightHash(w0, w', c') && c'.submission == c.submission
  {
    var (w', c') := Effect(w, sub, c, target).value;
    EffectWritesOnce(w, sub, c, target);
    OnceAndAgain(w0, w, w');
    SnapshotIsKept(w, sub, c, target);
    assert RowKeptAt(w, w', c.strategy);
  }

  lemma {:induction false} CallHashes(w0: World, w: World, sub: SubmissionId, c: Call, target: nat, n: nat)
    requires WorldOk(w) && CallOk(w, sub, c) && RightHash(w0, w, c)
    ensures var (w', c') := RunCall(w, sub, c, target, n); RightHash(w0, w', c') && c'.submission == c.submission
    decreases n
  {
    if n > 0 && Effect(w, sub, c, target).Some? {
      EffectKeeps(w, sub, c, target);
      EffectHashes(w0, w, sub, c, target);
      var (w', c') := Effect(w, sub, c, target).value;
      CallHashes(w0, w', sub, c', target, n - 1);
    }
  }

  /** Whatever came before, a retry that is left alone anchors the hash the submission had when it began;
      for a submission that has a strategy already, the hash of that strategy. */
  lemma UndisturbedRetryAnchors(target: nat, steps: seq<Step>, sub: SubmissionId)
    requires Admitted(RunSteps(NewMachine(target), steps).world, sub)
    ensures var w := RunSteps(NewMachine(target), steps).world;
            var s := w.submissions[sub];
            var (w', c) := RunCall(w, sub, Begun(w, sub), target, 9 + |s.secrets|);
            && c.strategy in w'.strategies && c.strategy in w'.chain.registry
            && w'.chain.registry[c.strategy].hash == w'.strategies[c.strategy].hash
            && (if s.strategy == None then Some(w'.chain.registry[c.strategy].hash) == s.hash
                else c.strategy == s.strategy.value && c.strategy in w.strategies
                     && w'.chain.registry[c.strategy].hash == w.strategies[c.strategy].hash)
  {
    var w := RunSteps(NewMachine(target), steps).world;
    var n := 9 + |w.submissions[sub].secrets|;
    NewMachineIsConsistent(target);
    EveryRunIsConsistent(NewMachine(target), steps);
    UndisturbedRetrySucceeds(target, steps, sub);
    NothingRewritten(w);
    CallHashes(w, w, sub, Begun(w, sub), target, n);
    var (w', c) := RunCall(w, sub, Begun(w, sub), target, n);
    assert SubmissionOk(w, sub);
    assert RowKeptAt(w, w', c.strategy);
  }

  lemma NothingRewritten(w: World)
    ensures WrittenOnce(w, w)
  {
  }

  function Advances(sub: SubmissionId, n: nat): seq<Step> {
    if n == 0 then [] else [Advance(sub)] + Advances(sub, n - 1)
  }

  /** How many of the next `n` effects of a call there are to be had. */
  function EffectsTaken(w: World, sub: SubmissionId, c: Call, target: nat, n: nat): nat
    decreases n
  {
    if n == 0 || Effect(w, sub, c, target) == None then 0
    else
      var (w', c') := Effect(w, sub, c, target).value;
      1 + EffectsTaken(w', sub, c', target, n - 1)
  }

  lemma {:induction false} StepsAreEffects(m: Machine, sub: SubmissionId, n: nat)
    requires sub in m.calls
    ensures var (w, c) := RunCall(m.world, sub, m.calls[sub], m.reserveTarget, n);
            RunSteps(m, Advances(sub, EffectsTaken(m.world, sub, m.calls[sub], m.reserveTarget, n)))
            == m.(world := w, calls := m.calls[sub := c])
    decreases n
  {
    var r := Effect(m.world, sub, m.calls[sub], m.reserveTarget);
    if n == 0 || r == None {
      assert m.calls[sub := m.calls[sub]] == m.calls;
    } else {
      var (w', c') := r.value;
      var m' := m.(world := w', calls := m.calls[sub := c']);
      assert Next(m, Advance(sub)) == m';
      StepsAreEffects(m', sub, n - 1);
      var rest := Advances(sub, EffectsTaken(w', sub, c', m.reserveTarget, n - 1));
      assert ([Advance(sub)] + rest)[1..] == rest;
      var last := RunCall(w', sub, c', m.reserveTarget, n - 1).1;
      assert m'.calls[sub := last] == m.calls[sub := last];
    }
  }

  /** From anywhere: an admitted submission that nobody is publishing is published by beginning a call
      and letting it go on. */
  lemma PublishedByItsSteps(target: nat, steps: seq<Step>, sub: SubmissionId) returns (n: nat)
    requires var m := RunSteps(NewMachine(target), steps); Admitted(m.world, sub) && sub !in m.calls
    ensures var m := RunSteps(RunSteps(NewMachine(target), steps), [Begin(sub)] + Advances(sub, n));
            sub in m.calls && m.calls[sub].pc.Finished? && Published(m.world, sub, m.calls[sub].strategy, target)
  {
    var m := RunSteps(NewMachine(target), steps);
    var begun := Begun(m.world, sub);
    TargetStays(NewMachine(target), steps);
    var budget := 9 + |m.world.submissions[sub].secrets|;
    n := EffectsTaken(m.world, sub, begun, target, budget);
    UndisturbedRetrySucceeds(target, steps, sub);
    assert Next(m, Begin(sub)) == m.(calls := m.calls[sub := begun]);
    StepsAreEffects(Next(m, Begin(sub)), sub, budget);
    assert ([Begin(sub)] + Advances(sub, n))[1..] == Advances(sub, n);
  }

  lemma {:induction false} TargetStays(m: Machine, steps: seq<Step>)
    ensures RunSteps(m, steps).reserveTarget == m.reserveTarget
    decreases |steps|
  {
    if steps != [] {
      TargetStays(Next(m, steps[0]), steps[1..]);
    }
  }

  /** Also while a call for it is under way: once that call has failed, or the process has died with it,
      the next one publishes. */
  lemma RetriedAfterFailure(target: nat, steps: seq<Step>, sub: SubmissionId, failure: Step) returns (n: nat)
    requires Admitted(RunSteps(NewMachine(target), steps).world, sub) && failure in {Fail(sub), Crash}
    ensures var m := RunSteps(RunSteps(NewMachine(target), steps + [failure]), [Begin(sub)] + Advances(sub, n));
            sub in m.calls && m.calls[sub].pc.Finished? && Published(m.world, sub, m.calls[sub].strategy, target)
  {
    OneMoreStep(NewMachine(target), steps, failure);
    n := PublishedByItsSteps(target, steps + [failure], sub);
  }

  /** A call that has ended is forgotten, whether it was finished, failed or died, so that the next one may
      begin; the tables and the chain stay as they are. */
  lemma EndedIsForgotten(m: Machine, sub: SubmissionId, ending: Step)
    requires sub in m.calls && ((ending == Advance(sub) && m.calls[sub].pc.Finished?) || ending in {Fail(sub), Crash})
    ensures var m' := Next(m, ending);
            && sub !in m'.calls && (ending != Crash ==> m'.calls == m.calls - {sub})
            && m'.world.submissions == m.world.submissions && m'.world.strategies == m.world.strategies && m'.world.chain == m.world.chain
            && (Admitted(m.world, sub) ==> Next(m', Begin(sub)).calls[sub] == Begun(m.world, sub))
  {
  }

  lemma RunThree(m: Machine, a: Step, b: Step, c: Step)
    ensures RunSteps(m, [a, b, c]) == Next(Next(Next(m, a), b), c)
  {
    assert [a, b, c][1..] == [b, c] && [b, c][1..] == [c] && [c][1..] == [];
    assert RunSteps(m, [a, b, c]) == RunSteps(Next(m, a), [b, c]);
    assert RunSteps(Next(m, a), [b, c]) == RunSteps(Next(Next(m, a), b), [c]);
    assert RunSteps(Next(Next(m, a), b), [c]) == RunSteps(Next(Next(Next(m, a), b), c), []);
  }

  lemma Prepared(target: nat, sub: SubmissionId, hash: Hash, rows: seq<(Key, Ciphertext)>)
    requires DistinctRows(rows)
    ensures var m := RunSteps(NewMachine(target), [Submit(sub), PostSecrets(sub, rows), Edit(sub, true, Some(hash))]);
            m.world.submissions == map[sub := Submission(true, Some(hash), None, false, rows)] && m.calls == map[]
  {
    RunThree(NewMachine(target), Submit(sub), PostSecrets(sub, rows), Edit(sub, true, Some(hash)));
  }

  /** From nothing: handed in, given its secrets, checked and published, a submission ends live, with its
      own secrets on its strategy and its own hash anchored. */
  lemma PublishedFromScratch(target: nat, sub: SubmissionId, hash: Hash, rows: seq<(Key, Ciphertext)>)
    requires DistinctRows(rows)
    ensures var w0 := RunSteps(NewMachine(target), [Submit(sub), PostSecrets(sub, rows), Edit(sub, true, Some(hash))]).world;
            && Admitted(w0, sub)
            && var (w, c) := RunCall(w0, sub, Begun(w0, sub), target, 9 + |rows|);
               && Published(w, sub, c.strategy, target) && w.submissions[sub].secrets == rows
               && CarriedExactly(rows, w.strategies[c.strategy].secrets)
               && w.chain.registry[c.strategy].hash == hash
  {
    var steps := [Submit(sub), PostSecrets(sub, rows), Edit(sub, true, Some(hash))];
    Prepared(target, sub, hash, rows);
    FirstPublication(target, steps, sub);
  }

  lemma FirstPublication(target: nat, steps: seq<Step>, sub: SubmissionId)
    requires var w := RunSteps(NewMachine(target), steps).world; Admitted(w, sub) && w.submissions[sub].strategy == None
    ensures var w := RunSteps(NewMachine(target), steps).world;
            var s := w.submissions[sub];
            var (w', c) := RunCall(w, sub, Begun(w, sub), target, 9 + |s.secrets|);
            && Published(w', sub, c.strategy, target) && w'.submissions[sub].secrets == s.secrets
            && Some(w'.chain.registry[c.strategy].hash) == s.hash
  {
    var w := RunSteps(NewMachine(target), steps).world;
    UndisturbedRetrySucceeds(target, steps, sub);
    UndisturbedRetryAnchors(target, steps, sub);
    NewMachineIsConsistent(target);
    EveryRunIsConsistent(NewMachine(target), steps);
    SecretsStay(w, sub, Begun(w, sub), target, 9 + |w.submissions[sub].secrets|);
  }

  lemma PostedStays(w: World, sub: SubmissionId, c: Call, target: nat)
    requires sub in w.submissions && Effect(w, sub, c, target).Some?
    ensures var w' := Effect(w, sub, c, target).value.0; sub in w'.submissions && w'.submissions[sub].secrets == w.submissions[sub].secrets
  {
  }

  lemma {:induction false} SecretsStay(w: World, sub: SubmissionId, c: Call, target: nat, n: nat)
    requires WorldOk(w) && CallOk(w, sub, c)
    ensures var w' := RunCall(w, sub, c, target, n).0; sub in w'.submissions && w'.submissions[sub].secrets == w.submissions[sub].secrets
    decreases n
  {
    if n > 0 && Effect(w, sub, c, target).Some? {
      EffectKeeps(w, sub, c, target);
      PostedStays(w, sub, c, target);
      var (w', c') := Effect(w, sub, c, target).value;
      SecretsStay(w', sub, c', target, n - 1);
    }
  }

  // ---------------------------------------------------------------- the reserve to the unit

  predicate PastReserve(pc: Pc) { pc.Register? || pc.Carry? || pc.GoLive? || pc.Finished? }

  /** The call has topped its vault up to the target if it stood below, and touched no other reserve. */
  predicate ReserveAt(w0: World, w: World, c: Call, target: nat, vault: Address) {
    var before := Get(w0.chain.reserves, vault);
    Get(w.chain.reserves, vault) == if PastReserve(c.pc) && vault == c.vault && before < target then target else before
  }

  ghost predicate Reserved(w0: World, w: World, c: Call, target: nat) {
    && (forall v :: ReserveAt(w0, w, c, target, v))
    && (forall v <- w0.chain.reserves :: v < w.nextAddress)
  }

  lemma EffectReserves(w0: World, w: World, sub: SubmissionId, c: Call, target: nat)
    requires CallOk(w, sub, c) && Reserved(w0, w, c, target) && Effect(w, sub, c, target).Some?
    ensures Reserved(w0, Effect(w, sub, c, target).value.0, Effect(w, sub, c, target).value.1, target)
  {
    var (w', c') := Effect(w, sub, c, target).value;
    VaultsAreNew(w, sub, c, target);
    forall v ensures ReserveAt(w0, w', c', target, v) {
      assert ReserveAt(w0, w, c, target, v);
      OneReserve(w0, w, sub, c, target, v);
    }
  }

  lemma OneReserve(w0: World, w: World, sub: SubmissionId, c: Call, target: nat, v: Address)
    requires ReserveAt(w0, w, c, target, v) && Effect(w, sub, c, target).Some?
    requires v in w0.chain.reserves ==> v < w.nextAddress
    ensures ReserveAt(w0, Effect(w, sub, c, target).value.0, Effect(w, sub, c, target).value.1, target, v)
  {
    match c.pc
    case Deploy =>
    case Reserve =>
    case _ => OthersReserveNothing(w, sub, c, target);
  }

  lemma OthersReserveNothing(w: World, sub: SubmissionId, c: Call, target: nat)
    requires Effect(w, sub, c, target).Some? && !c.pc.Deploy? && !c.pc.Reserve?
    ensures var (w', c') := Effect(w, sub, c, target).value;
            && w'.chain.reserves == w.chain.reserves && c'.vault == c.vault
            && (PastReserve(c'.pc) <==> PastReserve(c.pc) || c.pc.Reserve?)
  {
    match c.pc
    case Resolve => RowsAside(w, sub, c);
    case Wallet => RowsAside(w, sub, c);
    case WriteVault => RowsAside(w, sub, c);
    case Carry => RowsAside(w, sub, c);
    case GoLive => RowsAside(w, sub, c);
    case _ =>
  }

  lemma {:induction false} CallReserves(w0: World, w: World, sub: SubmissionId, c: Call, target: nat, n: nat)
    requires WorldOk(w) && CallOk(w, sub, c) && Reserved(w0, w, c, target)
    ensures Reserved(w0, RunCall(w, sub, c, target, n).0, RunCall(w, sub, c, target, n).1, target)
    decreases n
  {
    if n > 0 && Effect(w, sub, c, target).Some? {
      EffectKeeps(w, sub, c, target);
      EffectReserves(w0, w, sub, c, target);
      var (w', c') := Effect(w, sub, c, target).value;
      CallReserves(w0, w', sub, c', target, n - 1);
    }
  }

  lemma {:induction false} ReservesAreVaults(m: Machine, steps: seq<Step>)
    requires Consistent(m) && ReservesOfVaults(m.world)
    ensures ReservesOfVaults(RunSteps(m, steps).world)
    decreases |steps|
  {
    if steps != [] {
      StepIsConsistent(m, steps[0]);
      StepTopsUp(m, steps[0]);
      ReservesAreVaults(Next(m, steps[0]), steps[1..]);
    }
  }

  /** A retry that is left alone brings the reserve of its vault up to the target and not beyond, whatever
      had been spent of it, and no other vault's reserve moves. */
  lemma ToppedUpExactly(target: nat, steps: seq<Step>, sub: SubmissionId, vault: Address)
    requires Admitted(RunSteps(NewMachine(target), steps).world, sub)
    ensures var w := RunSteps(NewMachine(target), steps).world;
            var (w', c) := RunCall(w, sub, Begun(w, sub), target, 9 + |w.submissions[sub].secrets|);
            var before := Get(w.chain.reserves, vault);
            && HasVault(w', c.strategy) && w'.strategies[c.strategy].vault == Some(c.vault)
            && Get(w'.chain.reserves, vault) == if vault == c.vault && before < target then target else before
  {
    var w := RunSteps(NewMachine(target), steps).world;
    var n := 9 + |w.submissions[sub].secrets|;
    NewMachineIsConsistent(target);
    EveryRunIsConsistent(NewMachine(target), steps);
    EveryRunKeepsSecrets(NewMachine(target), steps);
    ReservesAreVaults(NewMachine(target), steps);
    CallFinishes(w, sub, Begun(w, sub), target, n);
    CallReserves(w, w, sub, Begun(w, sub), target, n);
    var (w', c) := RunCall(w, sub, Begun(w, sub), target, n);
    assert ReserveAt(w, w', c, target, vault);
  }

  /** What is spent of a reserve is gone until the next call. */
  lemma SpendingIsSeen(m: Machine, vault: Address, left: nat, other: Address)
    requires vault in m.world.chain.reserves && other != vault
    ensures var w := Next(m, SpendReserve(vault, left)).world;
            Get(w.chain.reserves, vault) == left && NotDrawn(m.world, w, other)
  {
  }
}
