/** Publishing a submission, interrupted anywhere: backend/src/strategy/publish.ts. */
module Publish {
  import opened Collections

  type SubmissionId = nat
  type StrategyId = nat
  type Hash = nat
  type Key = nat
  type Ciphertext = nat

  /** `hash` is the binary hash of the last checks; editing the source clears it. */
  datatype Submission = Submission(
    checksPassed: bool,
    hash: Option<Hash>,
    strategy: Option<StrategyId>,
    live: bool,
    secrets: seq<(Key, Ciphertext)>)

  datatype StrategyRow = StrategyRow(
    hash: Hash,
    wallet: Option<Address>,
    vault: Option<Address>,
    live: bool,
    secrets: map<Key, Ciphertext>)

  datatype Anchor = Anchor(vault: Address, hash: Hash)

  datatype Chain = Chain(
    operators: map<Address, Address>,  // vault to operator
    reserves: map<Address, nat>,
    registry: map<StrategyId, Anchor>,
    funded: set<Address>)

  /** The database and the chain, which survive a crash, and four tallies that only remember: how
      often a vault was deployed for a strategy, how often it was lost before its address was
      written down, and how often a strategy was registered. */
  datatype World = World(
    submissions: map<SubmissionId, Submission>,
    strategies: map<StrategyId, StrategyRow>,
    chain: Chain,
    nextStrategy: StrategyId,
    nextAddress: Address,
    deployed: map<StrategyId, nat>,
    lost: map<StrategyId, nat>,
    registered: map<StrategyId, nat>)

  /** Where a call is between two of its effects. */
  datatype Pc = Resolve | Wallet | Gas | Deploy | WriteVault | Reserve | Register | Carry | GoLive | Finished

  /** A call in progress with the locals it has read: rows are read once and not again. */
  datatype Call = Call(pc: Pc, submission: Submission, strategy: StrategyId, row: StrategyRow, wallet: Address, vault: Address)

  /** `calls` is the in-flight map: at most one call per submission in a process. */
  datatype Machine = Machine(world: World, calls: map<SubmissionId, Call>, reserveTarget: nat)

  const NO_ROW := StrategyRow(0, None, None, false, map[])

  function Begun(w: World, sub: SubmissionId): Call
    requires sub in w.submissions
  {
    Call(Resolve, w.submissions[sub], 0, NO_ROW, 0, 0)
  }

  /** The refusals that come before any effect. */
  predicate Admitted(w: World, sub: SubmissionId) {
    sub in w.submissions && w.submissions[sub].checksPassed && w.submissions[sub].hash.Some?
  }

  function Bump(m: map<StrategyId, nat>, id: StrategyId): map<StrategyId, nat> { m[id := Get(m, id) + 1] }

  function SetRow(w: World, id: StrategyId, row: StrategyRow): World { w.(strategies := w.strategies[id := row]) }

  function MissingSecret(secrets: seq<(Key, Ciphertext)>, have: map<Key, Ciphertext>): Option<(Key, Ciphertext)> {
    if secrets == [] then None
    else if secrets[0].0 !in have then Some(secrets[0])
    else MissingSecret(secrets[1..], have)
  }

  /** An effect ends in the world it leaves and the call's next place; `None` is an error thrown
      before anything was written. */
  type Progress = Option<(World, Call)>

  /** The row and the link to it are written in one transaction. */
  function ResolveEffect(w: World, sub: SubmissionId, c: Call): Progress {
    if c.submission.strategy.Some? then
      var id := c.submission.strategy.value;
      if id !in w.strategies then None else Some((w, c.(pc := Wallet, strategy := id, row := w.strategies[id])))
    else if sub !in w.submissions || c.submission.hash == None then None
    else
      var id, row := w.nextStrategy, NO_ROW.(hash := c.submission.hash.value);
      Some((w.(strategies := w.strategies[id := row], nextStrategy := id + 1,
               submissions := w.submissions[sub := w.submissions[sub].(strategy := Some(id))]),
            c.(pc := Wallet, strategy := id, row := row)))
  }

  function WalletEffect(w: World, c: Call): Progress {
    if c.row.wallet.Some? then Some((w, c.(pc := Gas, wallet := c.row.wallet.value)))
    else if c.strategy !in w.strategies then None
    else
      var address := w.nextAddress;
      Some((SetRow(w, c.strategy, w.strategies[c.strategy].(wallet := Some(address))).(nextAddress := address + 1),
            c.(pc := Gas, wallet := address)))
  }

  function DeployEffect(w: World, c: Call): Progress {
    if c.row.vault.Some? then Some((w, c.(pc := Reserve, vault := c.row.vault.value)))
    else
      var address := w.nextAddress;
      Some((w.(chain := w.chain.(operators := w.chain.operators[address := c.wallet], reserves := w.chain.reserves[address := 0]),
               nextAddress := address + 1, deployed := Bump(w.deployed, c.strategy)),
            c.(pc := WriteVault, vault := address)))
  }

  function WriteVaultEffect(w: World, c: Call): Progress {
    if c.strategy !in w.strategies then None
    else Some((SetRow(w, c.strategy, w.strategies[c.strategy].(vault := Some(c.vault))), c.(pc := Reserve)))
  }

  function ReserveEffect(w: World, c: Call, target: nat): Progress {
    var topped := if Get(w.chain.reserves, c.vault) < target then w.chain.reserves[c.vault := target] else w.chain.reserves;
    Some((w.(chain := w.chain.(reserves := topped)), c.(pc := Register)))
  }

  function RegisterEffect(w: World, c: Call): Progress {
    if c.strategy in w.chain.registry then Some((w, c.(pc := Carry)))
    else
      Some((w.(chain := w.chain.(registry := w.chain.registry[c.strategy := Anchor(c.vault, c.row.hash)]),
               registered := Bump(w.registered, c.strategy)),
            c.(pc := Carry)))
  }

  /** One row of `carrySecrets`, which inserts them one at a time and never overwrites. */
  function CarryEffect(w: World, sub: SubmissionId, c: Call): Progress {
    if sub !in w.submissions || c.strategy !in w.strategies then None
    else
      var row := w.strategies[c.strategy];
      match MissingSecret(w.submissions[sub].secrets, row.secrets)
      case None => Some((w, c.(pc := GoLive)))
      case Some(kv) => Some((SetRow(w, c.strategy, row.(secrets := row.secrets[kv.0 := kv.1])), c))
  }

  function GoLiveEffect(w: World, sub: SubmissionId, c: Call): Progress {
    if c.row.live && c.submission.live then Some((w, c.(pc := Finished)))
    else if sub !in w.submissions || c.strategy !in w.strategies then None
    else
      Some((SetRow(w, c.strategy, w.strategies[c.strategy].(live := true))
              .(submissions := w.submissions[sub := w.submissions[sub].(live := true)]),
            c.(pc := Finished)))
  }

  /** One effect of a call, or the skip of one that has already happened. */
  function Effect(w: World, sub: SubmissionId, c: Call, target: nat): Progress {
    match c.pc
    case Resolve => ResolveEffect(w, sub, c)
    case Wallet => WalletEffect(w, c)
    case Gas => Some((w.(chain := w.chain.(funded := w.chain.funded + {c.wallet})), c.(pc := Deploy)))
    case Deploy => DeployEffect(w, c)
    case WriteVault => WriteVaultEffect(w, c)
    case Reserve => ReserveEffect(w, c, target)
    case Register => RegisterEffect(w, c)
    case Carry => CarryEffect(w, sub, c)
    case GoLive => GoLiveEffect(w, sub, c)
    case Finished => None
  }

  datatype Step =
    | Begin(sub: SubmissionId)
    | Advance(sub: SubmissionId)
    | Fail(sub: SubmissionId)  // the call throws: a node or a disk said no
    | Crash                    // the process dies with all its calls
    | Edit(sub: SubmissionId, checksPassed: bool, hash: Option<Hash>)
    | Submit(sub: SubmissionId)
    | PostSecrets(sub: SubmissionId, secrets: seq<(Key, Ciphertext)>)
    | SpendReserve(vault: Address, left: nat)

  /** The strategies whose call stands between deploying a vault and writing its address down. */
  function Writing(calls: map<SubmissionId, Call>): set<StrategyId> {
    set s | s in calls && calls[s].pc.WriteVault? :: calls[s].strategy
  }

  /** Ending such a call loses its vault: nobody will write that address down any more. */
  function Lose(w: World, ids: set<StrategyId>): World {
    w.(lost := map id | id in w.lost.Keys + ids :: Get(w.lost, id) + if id in ids then 1 else 0)
  }

  /** A linked submission is the record of what was published. */
  predicate Editable(s: Submission) { s.strategy == None && !s.live }

  /** No request comes between the beginning of a call and its row: there is no await between the two. */
  predicate CanChange(m: Machine, sub: SubmissionId) {
    && sub in m.world.submissions && Editable(m.world.submissions[sub])
    && !(sub in m.calls && m.calls[sub].pc.Resolve?)
  }

  predicate DistinctRows(secrets: seq<(Key, Ciphertext)>) {
    forall i, j :: 0 <= i < j < |secrets| ==> secrets[i].0 != secrets[j].0
  }

  function Next(m: Machine, step: Step): Machine {
    match step
    case Begin(sub) =>
      if sub in m.calls || !Admitted(m.world, sub) then m
      else m.(calls := m.calls[sub := Begun(m.world, sub)])
    case Advance(sub) =>
      if sub !in m.calls then m
      else
        (match Effect(m.world, sub, m.calls[sub], m.reserveTarget)
         case None => Ended(m, sub)
         case Some((w, c)) => m.(world := w, calls := m.calls[sub := c]))
    case Fail(sub) => if sub !in m.calls then m else Ended(m, sub)
    case Crash => m.(world := Lose(m.world, Writing(m.calls)), calls := map[])
    case Edit(sub, passed, hash) =>
      if !CanChange(m, sub) then m
      else
        var edited := m.world.submissions[sub].(checksPassed := passed, hash := hash);
        m.(world := m.world.(submissions := m.world.submissions[sub := edited]))
    case Submit(sub) =>
      if sub in m.world.submissions then m
      else m.(world := m.world.(submissions := m.world.submissions[sub := Submission(false, None, None, false, [])]))
    case PostSecrets(sub, secrets) =>
      if !CanChange(m, sub) || !DistinctRows(secrets) then m
      else m.(world := m.world.(submissions := m.world.submissions[sub := m.world.submissions[sub].(secrets := secrets)]))
    case SpendReserve(vault, left) =>
      if vault in m.world.chain.reserves then
        m.(world := m.world.(chain := m.world.chain.(reserves := m.world.chain.reserves[vault := left])))
      else m
  }

  function Ended(m: Machine, sub: SubmissionId): Machine
    requires sub in m.calls
  {
    m.(world := Lose(m.world, if m.calls[sub].pc.WriteVault? then {m.calls[sub].strategy} else {}), calls := m.calls - {sub})
  }

  function RunSteps(m: Machine, steps: seq<Step>): Machine
    decreases |steps|
  {
    if steps == [] then m else RunSteps(Next(m, steps[0]), steps[1..])
  }

  function NewMachine(target: nat): Machine {
    Machine(World(map[], map[], Chain(map[], map[], map[], {}), 0, 0, map[], map[], map[]), map[], target)
  }

  // ---------------------------------------------------------------- what every step keeps

  predicate Linked(w: World, sub: SubmissionId, id: StrategyId) {
    sub in w.submissions && w.submissions[sub].strategy == Some(id)
  }

  ghost predicate RowOk(w: World, id: StrategyId)
    requires id in w.strategies
  {
    var row := w.strategies[id];
    && id < w.nextStrategy
    && (row.vault.Some? ==>
          && row.wallet.Some?
          && row.vault.value in w.chain.operators && w.chain.operators[row.vault.value] == row.wallet.value)
    && (id in w.chain.registry ==> row.vault == Some(w.chain.registry[id].vault) && row.hash == w.chain.registry[id].hash)
    && (row.live ==> id in w.chain.registry)
  }

  ghost predicate SubmissionOk(w: World, sub: SubmissionId)
    requires sub in w.submissions
  {
    var s := w.submissions[sub];
    && (s.strategy.Some? ==>
          && s.strategy.value in w.strategies
          && (w.strategies[s.strategy.value].live ==> MissingSecret(s.secrets, w.strategies[s.strategy.value].secrets) == None))
    && (s.live ==> s.strategy.Some? && w.strategies[s.strategy.value].live)
  }

  ghost predicate WorldOk(w: World) {
    && (forall id <- w.strategies :: RowOk(w, id))
    && (forall sub <- w.submissions :: SubmissionOk(w, sub))
    && (forall a, b, id :: Linked(w, a, id) && Linked(w, b, id) ==> a == b)
    && (forall id <- w.chain.registry :: id in w.strategies)
    && (forall v <- w.chain.operators :: v < w.nextAddress)
  }

  /** What a call knows: its snapshot of the row is the row, but for what it has itself written. */
  ghost predicate LocalsOk(w: World, sub: SubmissionId, c: Call)
    requires c.strategy in w.strategies && sub in w.submissions
  {
    var row := w.strategies[c.strategy];
    && c.row.hash == row.hash
    && (c.row.live ==> row.live)
    && (c.pc.Wallet? ==> row.wallet == c.row.wallet)
    && (c.pc.Wallet? || c.pc.Gas? || c.pc.Deploy? ==> row.vault == c.row.vault)
    && (!c.pc.Resolve? && !c.pc.Wallet? ==> row.wallet == Some(c.wallet))
    && (c.pc.WriteVault? ==>
          row.vault == None && c.vault in w.chain.operators && w.chain.operators[c.vault] == c.wallet)
    && (c.pc.Reserve? || c.pc.Register? || c.pc.Carry? || c.pc.GoLive? || c.pc.Finished? ==> row.vault == Some(c.vault))
    && (c.pc.Carry? || c.pc.GoLive? || c.pc.Finished? ==> c.strategy in w.chain.registry)
    && (c.pc.GoLive? || c.pc.Finished? ==> MissingSecret(w.submissions[sub].secrets, row.secrets) == None)
    && (c.pc.Finished? ==> row.live)
  }

  ghost predicate CallOk(w: World, sub: SubmissionId, c: Call) {
    && sub in w.submissions
    && (c.pc.Resolve? ==> c.submission.hash.Some? && c.submission.strategy == w.submissions[sub].strategy)
    && (!c.pc.Resolve? ==> Linked(w, sub, c.strategy) && c.strategy in w.strategies && LocalsOk(w, sub, c))
  }

  predicate HasVault(w: World, id: StrategyId) { id in w.strategies && w.strategies[id].vault.Some? }

  ghost predicate TalliesOk(m: Machine) {
    forall id :: TallyOk(m.world, id, id in Writing(m.calls))
  }

  ghost predicate TallyOk(w: World, id: StrategyId, writing: bool) {
    && Get(w.registered, id) == (if id in w.chain.registry then 1 else 0)
    && Get(w.deployed, id) == Get(w.lost, id) + (if HasVault(w, id) then 1 else 0) + (if writing then 1 else 0)
  }

  ghost predicate Consistent(m: Machine) {
    && WorldOk(m.world)
    && (forall sub <- m.calls :: CallOk(m.world, sub, m.calls[sub]))
    && TalliesOk(m)
  }

  /** An effect changes the world only around one submission and its strategy. */
  ghost predicate Touches(w: World, w': World, sub: SubmissionId, id: StrategyId) {
    && w'.submissions.Keys == w.submissions.Keys
    && (forall s <- w.submissions :: s != sub ==> w'.submissions[s] == w.submissions[s])
    && (forall i :: i != id ==> (i in w.strategies <==> i in w'.strategies))
    && (forall i <- w.strategies :: i != id ==> w'.strategies[i] == w.strategies[i])
    && (forall i :: i != id ==> (i in w.chain.registry <==> i in w'.chain.registry))
    && (forall v <- w.chain.operators :: v in w'.chain.operators && w'.chain.operators[v] == w.chain.operators[v])
  }

  /** The call moved on, and the world is fine around it and elsewhere. */
  ghost predicate Kept(w: World, sub: SubmissionId, r: Progress) {
    r.Some? ==>
      var (w', c') := r.value;
      WorldOk(w') && CallOk(w', sub, c') && Linked(w', sub, c'.strategy) && Touches(w, w', sub, c'.strategy)
  }

  lemma ResolveKeeps(w: World, sub: SubmissionId, c: Call)
    requires WorldOk(w) && CallOk(w, sub, c) && c.pc.Resolve?
    ensures Kept(w, sub, ResolveEffect(w, sub, c))
  {
    var r := ResolveEffect(w, sub, c);
    if r.Some? && c.submission.strategy == None {
      var w' := r.value.0;
      assert w.nextStrategy !in w.strategies;
      forall s <- w'.submissions ensures SubmissionOk(w', s) {
        assert SubmissionOk(w, s);
      }
      forall a, b, i | Linked(w', a, i) && Linked(w', b, i) ensures a == b {
        assert a != sub ==> SubmissionOk(w, a) && Linked(w, a, i);
        assert b != sub ==> SubmissionOk(w, b) && Linked(w, b, i);
      }
    }
  }

  /** Changing one row, for the better, disturbs no other. */
  lemma RowChangeKeeps(w: World, w': World, sub: SubmissionId, id: StrategyId)
    requires WorldOk(w) && Linked(w, sub, id) && id in w.strategies && id in w'.strategies
    requires w'.strategies == w.strategies[id := w'.strategies[id]] && w'.chain == w.chain
    requires w'.nextStrategy == w.nextStrategy && w'.nextAddress >= w.nextAddress
    requires sub in w'.submissions && w'.submissions == w.submissions[sub := w'.submissions[sub]]
    requires w'.submissions[sub].strategy == Some(id)
    requires RowOk(w', id) && SubmissionOk(w', sub)
    ensures WorldOk(w') && Touches(w, w', sub, id)
  {
    forall s <- w'.submissions ensures SubmissionOk(w', s) {
      assert SubmissionOk(w, s);
      assert s != sub ==> !Linked(w, s, id);
    }
    forall i <- w'.strategies ensures RowOk(w', i) {
      assert RowOk(w, i);
    }
    forall a, b, i | Linked(w', a, i) && Linked(w', b, i) ensures a == b {
      assert Linked(w, a, i) && Linked(w, b, i);
    }
  }

  lemma WalletKeeps(w: World, sub: SubmissionId, c: Call)
    requires WorldOk(w) && CallOk(w, sub, c) && c.pc.Wallet?
    ensures Kept(w, sub, WalletEffect(w, c))
  {
    var r := WalletEffect(w, c);
    assert RowOk(w, c.strategy) && SubmissionOk(w, sub);
    if c.row.wallet == None && r.Some? {
      RowChangeKeeps(w, r.value.0, sub, c.strategy);
    }
  }

  /** Growing the chain leaves the tables alone. */
  lemma ChainChangeKeeps(w: World, w': World, sub: SubmissionId, id: StrategyId)
    requires WorldOk(w) && w'.strategies == w.strategies && w'.submissions == w.submissions && w'.nextStrategy == w.nextStrategy
    requires forall i <- w.strategies :: RowOk(w', i)
    requires forall i <- w'.chain.registry :: i in w.chain.registry || (i == id && id in w.strategies)
    requires w.chain.registry.Keys <= w'.chain.registry.Keys
    requires forall v <- w'.chain.operators :: v < w'.nextAddress
    requires forall v <- w.chain.operators :: v in w'.chain.operators && w'.chain.operators[v] == w.chain.operators[v]
    ensures WorldOk(w') && Touches(w, w', sub, id)
  {
    forall s <- w'.submissions ensures SubmissionOk(w', s) {
      assert SubmissionOk(w, s);
    }
    forall a, b, i | Linked(w', a, i) && Linked(w', b, i) ensures a == b {
      assert Linked(w, a, i) && Linked(w, b, i);
    }
  }

  lemma DeployKeeps(w: World, sub: SubmissionId, c: Call)
    requires WorldOk(w) && CallOk(w, sub, c) && c.pc.Deploy?
    ensures Kept(w, sub, DeployEffect(w, c))
  {
    var w' := DeployEffect(w, c).value.0;
    assert w.nextAddress !in w.chain.operators;
    forall i <- w.strategies ensures RowOk(w', i) {
      assert RowOk(w, i);
    }
    ChainChangeKeeps(w, w', sub, c.strategy);
  }

  lemma WriteVaultKeeps(w: World, sub: SubmissionId, c: Call)
    requires WorldOk(w) && CallOk(w, sub, c) && c.pc.WriteVault?
    ensures Kept(w, sub, WriteVaultEffect(w, c))
  {
    assert RowOk(w, c.strategy) && SubmissionOk(w, sub);
    RowChangeKeeps(w, WriteVaultEffect(w, c).value.0, sub, c.strategy);
  }

  lemma RegisterKeeps(w: World, sub: SubmissionId, c: Call)
    requires WorldOk(w) && CallOk(w, sub, c) && c.pc.Register?
    ensures Kept(w, sub, RegisterEffect(w, c))
  {
    var w' := RegisterEffect(w, c).value.0;
    forall i <- w.strategies ensures RowOk(w', i) {
      assert RowOk(w, i);
    }
    ChainChangeKeeps(w, w', sub, c.strategy);
  }

  lemma {:induction false} CarryingHelps(secrets: seq<(Key, Ciphertext)>, have: map<Key, Ciphertext>, more: map<Key, Ciphertext>)
    requires MissingSecret(secrets, have) == None && have.Keys <= more.Keys
    ensures MissingSecret(secrets, more) == None
  {
    if secrets != [] {
      CarryingHelps(secrets[1..], have, more);
    }
  }

  lemma CarryKeeps(w: World, sub: SubmissionId, c: Call)
    requires WorldOk(w) && CallOk(w, sub, c) && c.pc.Carry?
    ensures Kept(w, sub, CarryEffect(w, sub, c))
  {
    assert RowOk(w, c.strategy) && SubmissionOk(w, sub);
    var row, w' := w.strategies[c.strategy], CarryEffect(w, sub, c).value.0;
    if MissingSecret(w.submissions[sub].secrets, row.secrets).Some? {
      RowChangeKeeps(w, w', sub, c.strategy);
    }
  }

  lemma GoLiveKeeps(w: World, sub: SubmissionId, c: Call)
    requires WorldOk(w) && CallOk(w, sub, c) && c.pc.GoLive?
    ensures Kept(w, sub, GoLiveEffect(w, sub, c))
  {
    assert RowOk(w, c.strategy) && SubmissionOk(w, sub);
    if !(c.row.live && c.submission.live) {
      RowChangeKeeps(w, GoLiveEffect(w, sub, c).value.0, sub, c.strategy);
    }
  }

  lemma ReserveAndGasKeep(w: World, sub: SubmissionId, c: Call, target: nat)
    requires WorldOk(w) && CallOk(w, sub, c) && (c.pc.Gas? || c.pc.Reserve?)
    ensures Kept(w, sub, Effect(w, sub, c, target))
  {
    var w' := Effect(w, sub, c, target).value.0;
    forall i <- w.strategies ensures RowOk(w', i) {
      assert RowOk(w, i);
    }
    ChainChangeKeeps(w, w', sub, c.strategy);
  }

  lemma EffectKeeps(w: World, sub: SubmissionId, c: Call, target: nat)
    requires WorldOk(w) && CallOk(w, sub, c)
    ensures Kept(w, sub, Effect(w, sub, c, target))
  {
    match c.pc
    case Resolve => ResolveKeeps(w, sub, c);
    case Wallet => WalletKeeps(w, sub, c);
    case Deploy => DeployKeeps(w, sub, c);
    case WriteVault => WriteVaultKeeps(w, sub, c);
    case Register => RegisterKeeps(w, sub, c);
    case Carry => CarryKeeps(w, sub, c);
    case GoLive => GoLiveKeeps(w, sub, c);
    case Finished =>
    case _ => ReserveAndGasKeep(w, sub, c, target);
  }

  lemma OtherCallUntouched(w: World, w': World, sub: SubmissionId, id: StrategyId, other: SubmissionId, c: Call)
    requires CallOk(w, other, c) && other != sub && Touches(w, w', sub, id) && !Linked(w, other, id)
    ensures CallOk(w', other, c)
  {
  }

  // ---------------------------------------------------------------- the tallies

  ghost predicate Counts(w: World, c: Call, r: Progress, i: StrategyId, other: bool) {
    r.Some? ==>
      var (w', c') := r.value;
      if i == c'.strategy then TallyOk(w, i, c.pc.WriteVault?) ==> TallyOk(w', i, c'.pc.WriteVault?)
      else TallyOk(w, i, other) ==> TallyOk(w', i, other)
  }

  lemma DeployCounts(w: World, c: Call, i: StrategyId, other: bool)
    requires c.pc.Deploy? && c.strategy in w.strategies && w.strategies[c.strategy].vault == c.row.vault
    ensures Counts(w, c, DeployEffect(w, c), i, other)
  {
  }

  lemma WriteVaultCounts(w: World, c: Call, i: StrategyId, other: bool)
    requires c.pc.WriteVault? && c.strategy in w.strategies && w.strategies[c.strategy].vault == None
    ensures Counts(w, c, WriteVaultEffect(w, c), i, other)
  {
  }

  lemma RegisterCounts(w: World, c: Call, i: StrategyId, other: bool)
    requires c.pc.Register?
    ensures Counts(w, c, RegisterEffect(w, c), i, other)
  {
  }

  lemma ResolveCounts(w: World, sub: SubmissionId, c: Call, i: StrategyId, other: bool)
    requires c.pc.Resolve? && w.nextStrategy !in w.strategies
    ensures Counts(w, c, ResolveEffect(w, sub, c), i, other)
  {
  }

  lemma UncountedKeeps(w: World, w': World, i: StrategyId, writing: bool)
    requires w'.deployed == w.deployed && w'.lost == w.lost && w'.registered == w.registered
    requires w'.chain.registry == w.chain.registry && HasVault(w', i) == HasVault(w, i)
    ensures TallyOk(w, i, writing) ==> TallyOk(w', i, writing)
  {
  }

  lemma RestCounts(w: World, sub: SubmissionId, c: Call, target: nat, i: StrategyId, other: bool)
    requires !c.pc.Deploy? && !c.pc.WriteVault? && !c.pc.Register? && !c.pc.Resolve?
    ensures Counts(w, c, Effect(w, sub, c, target), i, other)
  {
    var r := Effect(w, sub, c, target);
    if r.Some? {
      SparesTheRest(w, sub, c, target, i);
      UncountedKeeps(w, r.value.0, i, if i == r.value.1.strategy then false else other);
    }
  }

  ghost predicate Spared(w: World, c: Call, r: Progress, i: StrategyId) {
    r.Some? ==>
      var (w', c') := r.value;
      && w'.deployed == w.deployed && w'.lost == w.lost && w'.registered == w.registered
      && w'.chain.registry == w.chain.registry && w'.chain.operators == w.chain.operators
      && HasVault(w', i) == HasVault(w, i) && !c'.pc.WriteVault?
      && c'.strategy == c.strategy && c'.submission == c.submission && c'.row == c.row
  }

  lemma CarrySpares(w: World, sub: SubmissionId, c: Call, i: StrategyId)
    requires c.pc.Carry?
    ensures Spared(w, c, CarryEffect(w, sub, c), i)
  {
  }

  lemma GoLiveSpares(w: World, sub: SubmissionId, c: Call, i: StrategyId)
    ensures Spared(w, c, GoLiveEffect(w, sub, c), i)
  {
  }

  lemma WalletSpares(w: World, c: Call, i: StrategyId)
    ensures Spared(w, c, WalletEffect(w, c), i)
  {
  }

  /** Only `Deploy` deploys, only `WriteVault` records a vault and only `Register` registers. */
  lemma SparesTheRest(w: World, sub: SubmissionId, c: Call, target: nat, i: StrategyId)
    requires !c.pc.Deploy? && !c.pc.WriteVault? && !c.pc.Register? && !c.pc.Resolve?
    ensures Spared(w, c, Effect(w, sub, c, target), i)
  {
    match c.pc
    case Carry => CarrySpares(w, sub, c, i);
    case GoLive => GoLiveSpares(w, sub, c, i);
    case Wallet => WalletSpares(w, c, i);
    case _ =>
  }

  /** An effect counts what it did: at most one vault on record, at most one registration. */
  lemma EffectCounts(w: World, sub: SubmissionId, c: Call, target: nat, i: StrategyId, other: bool)
    requires WorldOk(w) && CallOk(w, sub, c)
    ensures Counts(w, c, Effect(w, sub, c, target), i, other)
  {
    match c.pc
    case Resolve =>
      assert w.nextStrategy !in w.strategies;
      ResolveCounts(w, sub, c, i, other);
    case Deploy => DeployCounts(w, c, i, other);
    case WriteVault => WriteVaultCounts(w, c, i, other);
    case Register => RegisterCounts(w, c, i, other);
    case _ => RestCounts(w, sub, c, target, i, other);
  }

  /** Nobody but the strategy's own call stands between deploying and writing down. */
  lemma OnlyWriter(m: Machine, sub: SubmissionId, id: StrategyId)
    requires Consistent(m) && sub in m.calls
    requires Linked(m.world, sub, id) || id !in m.world.strategies
    requires m.calls[sub].pc.WriteVault? ==> m.calls[sub].strategy == id
    ensures id in Writing(m.calls) <==> m.calls[sub].pc.WriteVault?
  {
    if id in Writing(m.calls) {
      var s :| s in m.calls && m.calls[s].pc.WriteVault? && m.calls[s].strategy == id;
      assert CallOk(m.world, s, m.calls[s]);
      assert Linked(m.world, s, id);
    }
  }

  lemma WritersElsewhere(calls: map<SubmissionId, Call>, calls': map<SubmissionId, Call>, sub: SubmissionId, i: StrategyId)
    requires calls.Keys <= calls'.Keys + {sub} && calls'.Keys <= calls.Keys + {sub}
    requires forall s :: s != sub && s in calls && s in calls' ==> calls'[s] == calls[s]
    requires sub in calls && calls[sub].pc.WriteVault? ==> calls[sub].strategy != i
    requires sub in calls' && calls'[sub].pc.WriteVault? ==> calls'[sub].strategy != i
    ensures i in Writing(calls') <==> i in Writing(calls)
  {
    if i in Writing(calls) {
      var s :| s in calls && calls[s].pc.WriteVault? && calls[s].strategy == i;
      assert s in calls' && calls'[s] == calls[s];
    }
    if i in Writing(calls') {
      var s :| s in calls' && calls'[s].pc.WriteVault? && calls'[s].strategy == i;
      assert s in calls && calls'[s] == calls[s];
    }
  }

  /** The strategy a call is about, once its next effect is done. */
  lemma CallersStrategy(w: World, sub: SubmissionId, c: Call, target: nat)
    requires WorldOk(w) && CallOk(w, sub, c) && Effect(w, sub, c, target).Some?
    ensures var id := Effect(w, sub, c, target).value.1.strategy;
            && (Linked(w, sub, id) || id !in w.strategies)
            && (!c.pc.Resolve? ==> c.strategy == id)
  {
  }

  lemma AdvanceIsConsistent(m: Machine, sub: SubmissionId)
    requires Consistent(m) && sub in m.calls && Effect(m.world, sub, m.calls[sub], m.reserveTarget).Some?
    ensures Consistent(Next(m, Advance(sub)))
  {
    var c := m.calls[sub];
    var (w', c') := Effect(m.world, sub, c, m.reserveTarget).value;
    var calls' := m.calls[sub := c'];
    assert CallOk(m.world, sub, c);
    EffectKeeps(m.world, sub, c, m.reserveTarget);
    CallersStrategy(m.world, sub, c, m.reserveTarget);
    forall s <- calls' ensures CallOk(w', s, calls'[s]) {
      if s != sub {
        assert CallOk(m.world, s, m.calls[s]);
        OtherIsNotLinked(m.world, w', sub, c'.strategy, s);
        OtherCallUntouched(m.world, w', sub, c'.strategy, s, m.calls[s]);
      }
    }
    forall i ensures TallyOk(w', i, i in Writing(calls')) {
      TallyAfter(m, sub, i);
    }
  }

  lemma OtherIsNotLinked(w: World, w': World, sub: SubmissionId, id: StrategyId, other: SubmissionId)
    requires WorldOk(w) && other != sub && other in w.submissions && (Linked(w, sub, id) || id !in w.strategies)
    ensures !Linked(w, other, id)
  {
    assert SubmissionOk(w, other);
  }

  lemma TallyAfter(m: Machine, sub: SubmissionId, i: StrategyId)
    requires Consistent(m) && sub in m.calls && Effect(m.world, sub, m.calls[sub], m.reserveTarget).Some?
    ensures var (w', c') := Effect(m.world, sub, m.calls[sub], m.reserveTarget).value;
            TallyOk(w', i, i in Writing(m.calls[sub := c']))
  {
    var c := m.calls[sub];
    var (w', c') := Effect(m.world, sub, c, m.reserveTarget).value;
    assert CallOk(m.world, sub, c);
    assert TallyOk(m.world, i, i in Writing(m.calls));
    CallersStrategy(m.world, sub, c, m.reserveTarget);
    EffectCounts(m.world, sub, c, m.reserveTarget, i, i in Writing(m.calls));
    if i == c'.strategy {
      OnlyWriter(m, sub, i);
      WriterHere(m, sub, c', i);
    } else {
      WritersElsewhere(m.calls, m.calls[sub := c'], sub, i);
    }
  }

  lemma WriterHere(m: Machine, sub: SubmissionId, c': Call, i: StrategyId)
    requires Consistent(m) && sub in m.calls && c'.strategy == i
    requires Linked(m.world, sub, i) || i !in m.world.strategies
    ensures i in Writing(m.calls[sub := c']) <==> c'.pc.WriteVault?
  {
    var calls' := m.calls[sub := c'];
    if c'.pc.WriteVault? {
      assert sub in calls' && calls'[sub] == c';
    }
    if i in Writing(calls') {
      var s :| s in calls' && calls'[s].pc.WriteVault? && calls'[s].strategy == i;
      if s != sub {
        assert CallOk(m.world, s, m.calls[s]);
        assert Linked(m.world, s, i);
      }
    }
  }

  // ---------------------------------------------------------------- every run

  lemma EndedIsConsistent(m: Machine, sub: SubmissionId)
    requires Consistent(m) && sub in m.calls
    ensures Consistent(Ended(m, sub))
  {
    var m', c := Ended(m, sub), m.calls[sub];
    LosingKeepsWorld(m.world, if c.pc.WriteVault? then {c.strategy} else {});
    assert CallOk(m.world, sub, c);
    forall s <- m'.calls ensures CallOk(m'.world, s, m'.calls[s]) {
      assert CallOk(m.world, s, m.calls[s]);
    }
    forall i ensures TallyOk(m'.world, i, i in Writing(m'.calls)) {
      assert TallyOk(m.world, i, i in Writing(m.calls));
      if c.pc.WriteVault? && c.strategy == i {
        NobodyElseWrites(m, sub, i);
        assert i in Writing(m.calls) by { assert sub in m.calls; }
      } else {
        WritersElsewhere(m.calls, m'.calls, sub, i);
      }
    }
  }

  lemma NobodyElseWrites(m: Machine, sub: SubmissionId, i: StrategyId)
    requires Consistent(m) && sub in m.calls && Linked(m.world, sub, i)
    ensures i !in Writing(m.calls - {sub})
  {
    forall s | s in m.calls && s != sub ensures !m.calls[s].pc.WriteVault? || m.calls[s].strategy != i {
      assert CallOk(m.world, s, m.calls[s]);
    }
  }

  lemma LosingKeepsWorld(w: World, ids: set<StrategyId>)
    requires WorldOk(w)
    ensures WorldOk(Lose(w, ids))
    ensures forall s, c :: CallOk(w, s, c) ==> CallOk(Lose(w, ids), s, c)
  {
    var w' := Lose(w, ids);
    forall i <- w'.strategies ensures RowOk(w', i) { assert RowOk(w, i); }
    forall s <- w'.submissions ensures SubmissionOk(w', s) { assert SubmissionOk(w, s); }
    forall a, b, i | Linked(w', a, i) && Linked(w', b, i) ensures a == b { assert Linked(w, a, i) && Linked(w, b, i); }
  }

  lemma CrashIsConsistent(m: Machine)
    requires Consistent(m)
    ensures Consistent(Next(m, Crash))
  {
    LosingKeepsWorld(m.world, Writing(m.calls));
    assert Writing(map[]) == {};
    forall i ensures TallyOk(Next(m, Crash).world, i, i in Writing(map[])) {
      assert TallyOk(m.world, i, i in Writing(m.calls));
    }
  }

  lemma TablesAside(m: Machine, w': World)
    requires Consistent(m)
    requires w'.strategies == m.world.strategies && w'.chain.registry == m.world.chain.registry
    requires w'.deployed == m.world.deployed && w'.lost == m.world.lost && w'.registered == m.world.registered
    ensures TalliesOk(m.(world := w'))
  {
    forall i ensures TallyOk(w', i, i in Writing(m.calls)) {
      assert TallyOk(m.world, i, i in Writing(m.calls));
    }
  }

  ghost predicate SameDraft(a: Submission, b: Submission) {
    && b == a.(checksPassed := b.checksPassed, hash := b.hash, live := b.live, secrets := b.secrets)
    && (b.live ==> a.live)
    && (a.strategy.Some? ==> b.secrets == a.secrets)
  }

  ghost predicate OnlyDrafts(w: World, w': World) {
    && w' == w.(submissions := w'.submissions) && w.submissions.Keys <= w'.submissions.Keys
    && forall s <- w'.submissions ::
         if s in w.submissions then SameDraft(w.submissions[s], w'.submissions[s])
         else w'.submissions[s].strategy == None && !w'.submissions[s].live
  }

  /** Nothing that calls rely on changes when a draft is edited or created. */
  lemma SubmissionsAside(m: Machine, w': World)
    requires Consistent(m) && OnlyDrafts(m.world, w')
    ensures Consistent(m.(world := w'))
  {
    var w := m.world;
    forall i <- w'.strategies ensures RowOk(w', i) { assert RowOk(w, i); }
    forall s <- w'.submissions ensures SubmissionOk(w', s) { assert s in w.submissions ==> SubmissionOk(w, s); }
    forall s <- m.calls ensures CallOk(w', s, m.calls[s]) { assert CallOk(w, s, m.calls[s]); }
    forall a, b, i | Linked(w', a, i) && Linked(w', b, i) ensures a == b { assert Linked(w, a, i) && Linked(w, b, i); }
    TablesAside(m, w');
  }

  /** A tick that pays out reserve. */
  lemma SpendIsConsistent(m: Machine, vault: Address, left: nat)
    requires Consistent(m)
    ensures Consistent(Next(m, SpendReserve(vault, left)))
  {
    var w, w' := m.world, Next(m, SpendReserve(vault, left)).world;
    forall i <- w'.strategies ensures RowOk(w', i) { assert RowOk(w, i); }
    forall s <- w'.submissions ensures SubmissionOk(w', s) { assert SubmissionOk(w, s); }
    forall s <- m.calls ensures CallOk(w', s, m.calls[s]) { assert CallOk(w, s, m.calls[s]); }
    forall a, b, i | Linked(w', a, i) && Linked(w', b, i) ensures a == b { assert Linked(w, a, i) && Linked(w, b, i); }
    TablesAside(m, w');
  }

  lemma BeginIsConsistent(m: Machine, sub: SubmissionId)
    requires Consistent(m)
    ensures Consistent(Next(m, Begin(sub)))
  {
    var m' := Next(m, Begin(sub));
    if m'.calls != m.calls {
      forall i ensures TallyOk(m'.world, i, i in Writing(m'.calls)) {
        assert TallyOk(m.world, i, i in Writing(m.calls));
        WritersElsewhere(m.calls, m'.calls, sub, i);
      }
    }
  }

  /** A creator's step, or a stream of checks that writes its results. */
  lemma DraftStepIsConsistent(m: Machine, step: Step)
    requires Consistent(m) && (step.Edit? || step.Submit? || step.PostSecrets?)
    ensures Consistent(Next(m, step))
  {
    assert Next(m, step) == m.(world := Next(m, step).world);
    DraftStepIsOne(m, step);
    SubmissionsAside(m, Next(m, step).world);
  }

  lemma DraftStepIsOne(m: Machine, step: Step)
    requires step.Edit? || step.Submit? || step.PostSecrets?
    ensures OnlyDrafts(m.world, Next(m, step).world)
  {
  }

  lemma StepIsConsistent(m: Machine, step: Step)
    requires Consistent(m)
    ensures Consistent(Next(m, step))
  {
    match step
    case Begin(sub) => BeginIsConsistent(m, sub);
    case Advance(sub) =>
      if sub in m.calls {
        if Effect(m.world, sub, m.calls[sub], m.reserveTarget).Some? {
          AdvanceIsConsistent(m, sub);
        } else {
          EndedIsConsistent(m, sub);
        }
      }
    case Fail(sub) => if sub in m.calls { EndedIsConsistent(m, sub); }
    case Crash => CrashIsConsistent(m);
    case SpendReserve(vault, left) => SpendIsConsistent(m, vault, left);
    case _ => DraftStepIsConsistent(m, step);
  }

  lemma {:induction false} EveryRunIsConsistent(m: Machine, steps: seq<Step>)
    requires Consistent(m)
    ensures Consistent(RunSteps(m, steps))
    decreases |steps|
  {
    if steps != [] {
      StepIsConsistent(m, steps[0]);
      EveryRunIsConsistent(Next(m, steps[0]), steps[1..]);
    }
  }

  lemma NewMachineIsConsistent(target: nat)
    ensures Consistent(NewMachine(target))
  {
    assert Writing(map[]) == {};
  }

  // ---------------------------------------------------------------- what a strategy's secrets are

  /** Everything carried is a row of the submission: the creator's ciphertext under its own key. */
  ghost predicate FromRows(secrets: seq<(Key, Ciphertext)>, have: map<Key, Ciphertext>) {
    forall k <- have :: (k, have[k]) in secrets
  }

  /** The strategy has the submission's ciphertext under each key, and no other key. */
  ghost predicate CarriedExactly(secrets: seq<(Key, Ciphertext)>, have: map<Key, Ciphertext>) {
    && FromRows(secrets, have)
    && forall kv :: kv in secrets ==> kv.0 in have && have[kv.0] == kv.1
  }

  lemma {:induction false} MissingIsARow(secrets: seq<(Key, Ciphertext)>, have: map<Key, Ciphertext>)
    ensures match MissingSecret(secrets, have)
            case Some(kv) => kv in secrets && kv.0 !in have
            case None => forall kv :: kv in secrets ==> kv.0 in have
  {
    if secrets != [] {
      MissingIsARow(secrets[1..], have);
      assert secrets == [secrets[0]] + secrets[1..];
    }
  }

  lemma NothingMissingIsExact(secrets: seq<(Key, Ciphertext)>, have: map<Key, Ciphertext>)
    requires DistinctRows(secrets) && FromRows(secrets, have) && MissingSecret(secrets, have) == None
    ensures CarriedExactly(secrets, have)
  {
    MissingIsARow(secrets, have);
    forall kv | kv in secrets ensures kv.0 in have && have[kv.0] == kv.1 {
      var i :| 0 <= i < |secrets| && secrets[i] == kv;
      var j :| 0 <= j < |secrets| && secrets[j] == (kv.0, have[kv.0]);
    }
  }

  ghost predicate SecretsOk(w: World, sub: SubmissionId)
    requires sub in w.submissions
  {
    var s := w.submissions[sub];
    && DistinctRows(s.secrets)
    && (s.strategy.Some? && s.strategy.value in w.strategies ==> FromRows(s.secrets, w.strategies[s.strategy.value].secrets))
  }

  ghost predicate AllSecretsOk(w: World) { forall sub <- w.submissions :: SecretsOk(w, sub) }

  lemma CarriedRow(secrets: seq<(Key, Ciphertext)>, have: map<Key, Ciphertext>)
    requires FromRows(secrets, have) && MissingSecret(secrets, have).Some?
    ensures var kv := MissingSecret(secrets, have).value; FromRows(secrets, have[kv.0 := kv.1])
  {
    MissingIsARow(secrets, have);
  }

  /** The submission's own rows and what its strategy has of them. */
  ghost predicate SameSecrets(w: World, w': World, sub: SubmissionId, id: StrategyId) {
    && sub in w.submissions && sub in w'.submissions && w'.submissions[sub].secrets == w.submissions[sub].secrets
    && id in w.strategies && id in w'.strategies && w'.strategies[id].secrets == w.strategies[id].secrets
    && w.submissions[sub].strategy == w'.submissions[sub].strategy == Some(id)
  }

  lemma RowEffectsKeepSecrets(w: World, sub: SubmissionId, c: Call)
    requires CallOk(w, sub, c)
    ensures c.pc.Wallet? && WalletEffect(w, c).Some? ==> SameSecrets(w, WalletEffect(w, c).value.0, sub, c.strategy)
    ensures c.pc.WriteVault? && WriteVaultEffect(w, c).Some? ==> SameSecrets(w, WriteVaultEffect(w, c).value.0, sub, c.strategy)
    ensures c.pc.GoLive? && GoLiveEffect(w, sub, c).Some? ==> SameSecrets(w, GoLiveEffect(w, sub, c).value.0, sub, c.strategy)
  {
  }

  lemma ChainEffectsKeepSecrets(w: World, sub: SubmissionId, c: Call, target: nat)
    requires CallOk(w, sub, c) && (c.pc.Gas? || c.pc.Deploy? || c.pc.Reserve? || c.pc.Register?)
    ensures SameSecrets(w, Effect(w, sub, c, target).value.0, sub, c.strategy)
  {
  }

  lemma ResolveKeepsSecrets(w: World, sub: SubmissionId, c: Call)
    requires WorldOk(w) && CallOk(w, sub, c) && c.pc.Resolve? && ResolveEffect(w, sub, c).Some? && SecretsOk(w, sub)
    ensures var w' := ResolveEffect(w, sub, c).value.0;
            sub in w'.submissions && SecretsOk(w', sub) && w'.submissions[sub].secrets == w.submissions[sub].secrets
  {
    assert SubmissionOk(w, sub);
  }

  lemma CarryKeepsSecrets(w: World, sub: SubmissionId, c: Call)
    requires CallOk(w, sub, c) && c.pc.Carry? && CarryEffect(w, sub, c).Some? && SecretsOk(w, sub)
    ensures var w' := CarryEffect(w, sub, c).value.0;
            sub in w'.submissions && SecretsOk(w', sub) && w'.submissions[sub].secrets == w.submissions[sub].secrets
  {
    var have := w.strategies[c.strategy].secrets;
    if MissingSecret(w.submissions[sub].secrets, have).Some? {
      CarriedRow(w.submissions[sub].secrets, have);
    }
  }

  lemma OwnSecretsOk(w: World, sub: SubmissionId, c: Call, target: nat)
    requires WorldOk(w) && CallOk(w, sub, c) && Effect(w, sub, c, target).Some? && SecretsOk(w, sub)
    ensures var w' := Effect(w, sub, c, target).value.0;
            sub in w'.submissions && SecretsOk(w', sub) && w'.submissions[sub].secrets == w.submissions[sub].secrets
  {
    if c.pc.Resolve? {
      ResolveKeepsSecrets(w, sub, c);
    } else if c.pc.Carry? {
      CarryKeepsSecrets(w, sub, c);
    } else if c.pc.Wallet? || c.pc.WriteVault? || c.pc.GoLive? {
      RowEffectsKeepSecrets(w, sub, c);
    } else {
      ChainEffectsKeepSecrets(w, sub, c, target);
    }
  }

  lemma EffectKeepsSecrets(w: World, sub: SubmissionId, c: Call, target: nat)
    requires WorldOk(w) && CallOk(w, sub, c) && Effect(w, sub, c, target).Some? && AllSecretsOk(w)
    ensures AllSecretsOk(Effect(w, sub, c, target).value.0)
  {
    var (w', c') := Effect(w, sub, c, target).value;
    EffectKeeps(w, sub, c, target);
    OwnSecretsOk(w, sub, c, target);
    CallersStrategy(w, sub, c, target);
    forall s <- w'.submissions | s != sub ensures SecretsOk(w', s) {
      assert SecretsOk(w, s) && SubmissionOk(w, s);
      OtherIsNotLinked(w, w', sub, c'.strategy, s);
    }
  }

  lemma StepKeepsSecrets(m: Machine, step: Step)
    requires Consistent(m) && AllSecretsOk(m.world)
    ensures AllSecretsOk(Next(m, step).world)
  {
    var w, w' := m.world, Next(m, step).world;
    if step.Advance? && step.sub in m.calls && Effect(w, step.sub, m.calls[step.sub], m.reserveTarget).Some? {
      EffectKeepsSecrets(w, step.sub, m.calls[step.sub], m.reserveTarget);
    } else {
      forall s <- w'.submissions ensures SecretsOk(w', s) {
        assert s in w.submissions ==> SecretsOk(w, s);
      }
    }
  }

  lemma {:induction false} EveryRunKeepsSecrets(m: Machine, steps: seq<Step>)
    requires Consistent(m) && AllSecretsOk(m.world)
    ensures AllSecretsOk(RunSteps(m, steps).world)
    decreases |steps|
  {
    if steps != [] {
      StepIsConsistent(m, steps[0]);
      StepKeepsSecrets(m, steps[0]);
      EveryRunKeepsSecrets(Next(m, steps[0]), steps[1..]);
    }
  }

  /** Publishing, with a crash or an error at any point and any number of retries: a submission has
      one strategy and shares it with no other; a recorded vault is operated by the recorded wallet;
      the registry has at most one entry per strategy, written once, naming the recorded vault and
      hash; a live strategy has a vault and an anchor and carries every secret of its submission;
      and a strategy has had at most one vault more than were lost between being deployed and being
      written down. */
  lemma PublishingIsResumable(target: nat, steps: seq<Step>, sub: SubmissionId, other: SubmissionId, id: StrategyId)
    requires var w := RunSteps(NewMachine(target), steps).world; Linked(w, sub, id)
    ensures var w := RunSteps(NewMachine(target), steps).world;
            && id in w.strategies
            && (Linked(w, other, id) ==> other == sub)
            && (w.strategies[id].vault.Some? ==>
                  w.strategies[id].wallet.Some? && w.strategies[id].vault.value in w.chain.operators
                  && w.chain.operators[w.strategies[id].vault.value] == w.strategies[id].wallet.value)
            && (id in w.chain.registry ==>
                  w.strategies[id].vault == Some(w.chain.registry[id].vault) && w.strategies[id].hash == w.chain.registry[id].hash)
            && Get(w.registered, id) <= 1
            && (w.strategies[id].live ==>
                  id in w.chain.registry && w.strategies[id].vault.Some?
                  && CarriedExactly(w.submissions[sub].secrets, w.strategies[id].secrets))
            && Get(w.deployed, id) <= Get(w.lost, id) + 1
  {
    NewMachineIsConsistent(target);
    EveryRunIsConsistent(NewMachine(target), steps);
    var m := RunSteps(NewMachine(target), steps);
    assert SubmissionOk(m.world, sub);
    assert RowOk(m.world, id);
    assert TallyOk(m.world, id, id in Writing(m.calls));
    EveryRunKeepsSecrets(NewMachine(target), steps);
    assert SecretsOk(m.world, sub);
    if m.world.strategies[id].live {
      NothingMissingIsExact(m.world.submissions[sub].secrets, m.world.strategies[id].secrets);
    }
  }

  /** A call left to itself for at most `n` effects. */
  function RunCall(w: World, sub: SubmissionId, c: Call, target: nat, n: nat): (World, Call)
    decreases n
  {
    if n == 0 then (w, c)
    else
      var r := Effect(w, sub, c, target);
      if r == None then (w, c) else RunCall(r.value.0, sub, r.value.1, target, n - 1)
  }

  function MissingCount(secrets: seq<(Key, Ciphertext)>, have: map<Key, Ciphertext>): (n: nat)
    ensures n <= |secrets|
  {
    if secrets == [] then 0 else (if secrets[0].0 !in have then 1 else 0) + MissingCount(secrets[1..], have)
  }

  lemma {:induction false} CarryingCounts(secrets: seq<(Key, Ciphertext)>, have: map<Key, Ciphertext>, more: map<Key, Ciphertext>)
    requires have.Keys <= more.Keys
    ensures MissingCount(secrets, more) <= MissingCount(secrets, have)
    ensures MissingSecret(secrets, have).Some? && MissingSecret(secrets, have).value.0 in more ==>
              MissingCount(secrets, more) < MissingCount(secrets, have)
  {
    if secrets != [] {
      CarryingCounts(secrets[1..], have, more);
    }
  }

  /** A bound on the effects a call still has before it. */
  function EffectsLeft(w: World, sub: SubmissionId, c: Call): nat
    requires sub in w.submissions && (c.pc.Carry? ==> c.strategy in w.strategies)
  {
    var secrets := w.submissions[sub].secrets;
    match c.pc
    case Resolve => 9 + |secrets|
    case Wallet => 8 + |secrets|
    case Gas => 7 + |secrets|
    case Deploy => 6 + |secrets|
    case WriteVault => 5 + |secrets|
    case Reserve => 4 + |secrets|
    case Register => 3 + |secrets|
    case Carry => 2 + MissingCount(secrets, w.strategies[c.strategy].secrets)
    case GoLive => 1
    case Finished => 0
  }

  lemma CarryProgresses(w: World, sub: SubmissionId, c: Call)
    requires WorldOk(w) && CallOk(w, sub, c) && c.pc.Carry?
    ensures CarryEffect(w, sub, c).Some?
    ensures var (w', c') := CarryEffect(w, sub, c).value;
            CallOk(w', sub, c') && EffectsLeft(w', sub, c') < EffectsLeft(w, sub, c)
  {
    CarryKeeps(w, sub, c);
    var have := w.strategies[c.strategy].secrets;
    var missing := MissingSecret(w.submissions[sub].secrets, have);
    if missing.Some? {
      CarryingCounts(w.submissions[sub].secrets, have, have[missing.value.0 := missing.value.1]);
    }
  }

  lemma EffectExists(w: World, sub: SubmissionId, c: Call, target: nat)
    requires WorldOk(w) && CallOk(w, sub, c) && !c.pc.Finished?
    ensures Effect(w, sub, c, target).Some?
  {
    match c.pc
    case Resolve => assert SubmissionOk(w, sub);
    case Carry => CarryProgresses(w, sub, c);
    case _ =>
  }

  /** Outside the carrying of secrets every effect moves the call on by a place. */
  predicate MovesOn(pc: Pc, pc': Pc) {
    match pc
    case Resolve => pc'.Wallet?
    case Wallet => pc'.Gas?
    case Gas => pc'.Deploy?
    case Deploy => pc'.WriteVault? || pc'.Reserve?
    case WriteVault => pc'.Reserve?
    case Reserve => pc'.Register?
    case Register => pc'.Carry?
    case GoLive => pc'.Finished?
    case _ => false
  }

  lemma EffectMovesOn(w: World, sub: SubmissionId, c: Call, target: nat)
    requires Effect(w, sub, c, target).Some? && !c.pc.Carry?
    ensures MovesOn(c.pc, Effect(w, sub, c, target).value.1.pc)
  {
  }

  lemma MovingOnIsProgress(w: World, w': World, sub: SubmissionId, c: Call, c': Call)
    requires sub in w.submissions && sub in w'.submissions && w'.submissions[sub].secrets == w.submissions[sub].secrets
    requires MovesOn(c.pc, c'.pc) && (c'.pc.Carry? ==> c'.strategy in w'.strategies)
    ensures EffectsLeft(w', sub, c') < EffectsLeft(w, sub, c)
  {
  }

  /** An undisturbed call is never stuck: it has an effect to go on with until it is finished. */
  lemma EffectProgresses(w: World, sub: SubmissionId, c: Call, target: nat)
    requires WorldOk(w) && CallOk(w, sub, c) && SecretsOk(w, sub) && !c.pc.Finished?
    ensures Effect(w, sub, c, target).Some?
    ensures var (w', c') := Effect(w, sub, c, target).value;
            WorldOk(w') && CallOk(w', sub, c') && EffectsLeft(w', sub, c') < EffectsLeft(w, sub, c)
  {
    EffectExists(w, sub, c, target);
    EffectKeeps(w, sub, c, target);
    if c.pc.Carry? {
      CarryProgresses(w, sub, c);
    } else {
      OwnSecretsOk(w, sub, c, target);
      EffectMovesOn(w, sub, c, target);
      MovingOnIsProgress(w, Effect(w, sub, c, target).value.0, sub, c, Effect(w, sub, c, target).value.1);
    }
  }

  lemma {:induction false} CallFinishes(w: World, sub: SubmissionId, c: Call, target: nat, n: nat)
    requires WorldOk(w) && CallOk(w, sub, c) && AllSecretsOk(w) && Provided(w, sub, c, target) && n >= EffectsLeft(w, sub, c)
    ensures var (w', c') := RunCall(w, sub, c, target, n);
            c'.pc.Finished? && WorldOk(w') && CallOk(w', sub, c') && AllSecretsOk(w') && Provided(w', sub, c', target)
    decreases n
  {
    if !c.pc.Finished? {
      EffectProgresses(w, sub, c, target);
      EffectKeepsSecrets(w, sub, c, target);
      EffectProvides(w, sub, c, target);
      var (w', c') := Effect(w, sub, c, target).value;
      CallFinishes(w', sub, c', target, n - 1);
    }
  }

  /** The reserve stands at its target, the agent has been given gas and the submission is live, as far
      as the call has come. */
  predicate Provided(w: World, sub: SubmissionId, c: Call, target: nat) {
    && (!c.pc.Resolve? && !c.pc.Wallet? && !c.pc.Gas? ==> c.wallet in w.chain.funded)
    && (c.pc.Register? || c.pc.Carry? || c.pc.GoLive? || c.pc.Finished? ==> Get(w.chain.reserves, c.vault) >= target)
    && sub in w.submissions && (c.submission.live || c.pc.Finished? ==> w.submissions[sub].live)
  }

  lemma WritingProvides(w: World, sub: SubmissionId, c: Call, target: nat)
    requires Provided(w, sub, c, target) && (c.pc.Resolve? || c.pc.Wallet? || c.pc.WriteVault?)
    requires Effect(w, sub, c, target).Some?
    ensures var (w', c') := Effect(w, sub, c, target).value; Provided(w', sub, c', target)
  {
  }

  lemma EndingProvides(w: World, sub: SubmissionId, c: Call, target: nat)
    requires Provided(w, sub, c, target) && (c.pc.Carry? || c.pc.GoLive?)
    requires Effect(w, sub, c, target).Some?
    ensures var (w', c') := Effect(w, sub, c, target).value; Provided(w', sub, c', target)
  {
  }

  lemma EffectProvides(w: World, sub: SubmissionId, c: Call, target: nat)
    requires Provided(w, sub, c, target) && Effect(w, sub, c, target).Some?
    ensures var (w', c') := Effect(w, sub, c, target).value; Provided(w', sub, c', target)
  {
    match c.pc
    case Resolve => WritingProvides(w, sub, c, target);
    case Wallet => WritingProvides(w, sub, c, target);
    case WriteVault => WritingProvides(w, sub, c, target);
    case Carry => EndingProvides(w, sub, c, target);
    case GoLive => EndingProvides(w, sub, c, target);
    case _ =>
  }

  /** Submission and strategy live, the vault on record and anchored, with the reserve and the gas it needs, and exactly the
      secrets its creator posted. */
  ghost predicate Published(w: World, sub: SubmissionId, id: StrategyId, target: nat) {
    && Linked(w, sub, id) && w.submissions[sub].live && id in w.strategies
    && var row := w.strategies[id];
       && row.live && row.vault.Some? && row.wallet.Some?
       && row.vault.value in w.chain.operators && w.chain.operators[row.vault.value] == row.wallet.value
       && id in w.chain.registry && w.chain.registry[id] == Anchor(row.vault.value, row.hash)
       && Get(w.chain.reserves, row.vault.value) >= target && row.wallet.value in w.chain.funded
       && CarriedExactly(w.submissions[sub].secrets, row.secrets)
  }

  lemma FinishedIsPublished(w: World, sub: SubmissionId, c: Call, target: nat)
    requires WorldOk(w) && CallOk(w, sub, c) && c.pc.Finished? && AllSecretsOk(w) && Provided(w, sub, c, target)
    ensures Published(w, sub, c.strategy, target)
  {
    assert RowOk(w, c.strategy) && SecretsOk(w, sub);
    NothingMissingIsExact(w.submissions[sub].secrets, w.strategies[c.strategy].secrets);
  }

  lemma RetryPublishes(w: World, sub: SubmissionId, target: nat)
    requires WorldOk(w) && AllSecretsOk(w) && Admitted(w, sub)
    ensures var (w', c) := RunCall(w, sub, Begun(w, sub), target, 9 + |w.submissions[sub].secrets|);
            c.pc.Finished? && Published(w', sub, c.strategy, target)
  {
    var n := 9 + |w.submissions[sub].secrets|;
    CallFinishes(w, sub, Begun(w, sub), target, n);
    var (w', c) := RunCall(w, sub, Begun(w, sub), target, n);
    FinishedIsPublished(w', sub, c, target);
  }

  /** Whatever crashes and failures came before, one retry that is left alone publishes. */
  lemma UndisturbedRetrySucceeds(target: nat, steps: seq<Step>, sub: SubmissionId)
    requires Admitted(RunSteps(NewMachine(target), steps).world, sub)
    ensures var w := RunSteps(NewMachine(target), steps).world;
            var (w', c) := RunCall(w, sub, Begun(w, sub), target, 9 + |w.submissions[sub].secrets|);
            c.pc.Finished? && Published(w', sub, c.strategy, target)
  {
    NewMachineIsConsistent(target);
    EveryRunIsConsistent(NewMachine(target), steps);
    EveryRunKeepsSecrets(NewMachine(target), steps);
    RetryPublishes(RunSteps(NewMachine(target), steps).world, sub, target);
  }

  ghost predicate KnowsItIsDone(w: World, c: Call) {
    && c.submission.strategy.Some? && c.submission.strategy.value in w.chain.registry
    && !c.pc.WriteVault?
    && (!c.pc.Resolve? ==> c.strategy == c.submission.strategy.value && c.row.vault.Some?)
  }

  lemma DoneStaysDone(w: World, sub: SubmissionId, c: Call, target: nat)
    requires WorldOk(w) && CallOk(w, sub, c) && KnowsItIsDone(w, c) && Effect(w, sub, c, target).Some?
    ensures var (w', c') := Effect(w, sub, c, target).value;
            KnowsItIsDone(w', c') && w'.chain.operators == w.chain.operators && w'.chain.registry == w.chain.registry
  {
    match c.pc
    case Resolve =>
      assert SubmissionOk(w, sub);
      assert RowOk(w, c.submission.strategy.value);
    case Deploy =>
    case Register =>
    case _ => SparesTheRest(w, sub, c, target, c.strategy);
  }

  /** Once a strategy is anchored, publishing again deploys nothing and registers nothing, however
      far the rerun gets. */
  lemma {:induction false} RerunRepeatsNothing(w: World, sub: SubmissionId, c: Call, target: nat, n: nat)
    requires WorldOk(w) && CallOk(w, sub, c) && KnowsItIsDone(w, c)
    ensures var w' := RunCall(w, sub, c, target, n).0;
            w'.chain.operators == w.chain.operators && w'.chain.registry == w.chain.registry
    decreases n
  {
    if n > 0 && Effect(w, sub, c, target).Some? {
      EffectKeeps(w, sub, c, target);
      DoneStaysDone(w, sub, c, target);
      RerunRepeatsNothing(Effect(w, sub, c, target).value.0, sub, Effect(w, sub, c, target).value.1, target, n - 1);
    }
  }

  lemma RerunAfterSuccess(m: Machine, sub: SubmissionId, id: StrategyId, n: nat)
    requires Consistent(m) && Admitted(m.world, sub) && Linked(m.world, sub, id) && m.world.strategies[id].live
    ensures var w' := RunCall(m.world, sub, Begun(m.world, sub), m.reserveTarget, n).0;
            w'.chain.operators == m.world.chain.operators && w'.chain.registry == m.world.chain.registry
  {
    assert SubmissionOk(m.world, sub) && RowOk(m.world, id);
    RerunRepeatsNothing(m.world, sub, Begun(m.world, sub), m.reserveTarget, n);
  }

  // ---------------------------------------------------------------- the call itself

  class Publisher {
    const reserveTarget: nat
    var submissions: map<SubmissionId, Submission>
    var strategies: map<StrategyId, StrategyRow>
    var chain: Chain
    var nextStrategy: StrategyId
    var nextAddress: Address
    ghost var deployed: map<StrategyId, nat>
    ghost var lost: map<StrategyId, nat>
    ghost var registered: map<StrategyId, nat>

    ghost function State(): World
      reads this
    {
      World(submissions, strategies, chain, nextStrategy, nextAddress, deployed, lost, registered)
    }

    /** The method did the call's next effect, or threw where the effect is an error. */
    twostate predicate Did(sub: SubmissionId, c: Call, new after: Option<Call>)
      reads this
    {
      var r := Effect(old(State()), sub, c, reserveTarget);
      if r == None then after == None && State() == old(State()) else after.Some? && (State(), after.value) == r.value
    }

    method StrategyStep(sub: SubmissionId, c: Call) returns (after: Option<Call>)
      requires c.pc.Resolve?
      modifies this
      ensures Did(sub, c, after)
    {
      if c.submission.strategy.Some? {
        var id := c.submission.strategy.value;
        if id !in strategies {
          return None;
        }
        return Some(c.(pc := Wallet, strategy := id, row := strategies[id]));
      }
      if sub !in submissions || c.submission.hash == None {
        return None;
      }
      var id, row := nextStrategy, StrategyRow(c.submission.hash.value, None, None, false, map[]);
      nextStrategy := nextStrategy + 1;
      strategies := strategies[id := row];
      submissions := submissions[sub := submissions[sub].(strategy := Some(id))];
      return Some(c.(pc := Wallet, strategy := id, row := row));
    }

    method WalletStep(sub: SubmissionId, c: Call) returns (after: Option<Call>)
      requires c.pc.Wallet?
      modifies this
      ensures Did(sub, c, after)
    {
      if c.row.wallet.Some? {
        return Some(c.(pc := Gas, wallet := c.row.wallet.value));
      }
      if c.strategy !in strategies {
        return None;
      }
      var generated := nextAddress;
      nextAddress := nextAddress + 1;
      strategies := strategies[c.strategy := strategies[c.strategy].(wallet := Some(generated))];
      return Some(c.(pc := Gas, wallet := generated));
    }

    method GasStep(sub: SubmissionId, c: Call) returns (after: Option<Call>)
      requires c.pc.Gas?
      modifies this
      ensures Did(sub, c, after)
    {
      chain := chain.(funded := chain.funded + {c.wallet});
      return Some(c.(pc := Deploy));
    }

    method DeployStep(sub: SubmissionId, c: Call) returns (after: Option<Call>)
      requires c.pc.Deploy?
      modifies this
      ensures Did(sub, c, after)
    {
      if c.row.vault.Some? {
        return Some(c.(pc := Reserve, vault := c.row.vault.value));
      }
      var vault := nextAddress;
      nextAddress := nextAddress + 1;
      chain := chain.(operators := chain.operators[vault := c.wallet], reserves := chain.reserves[vault := 0]);
      deployed := Bump(deployed, c.strategy);
      return Some(c.(pc := WriteVault, vault := vault));
    }

    method WriteVaultStep(sub: SubmissionId, c: Call) returns (after: Option<Call>)
      requires c.pc.WriteVault?
      modifies this
      ensures Did(sub, c, after)
    {
      if c.strategy !in strategies {
        return None;
      }
      strategies := strategies[c.strategy := strategies[c.strategy].(vault := Some(c.vault))];
      return Some(c.(pc := Reserve));
    }

    method ReserveStep(sub: SubmissionId, c: Call) returns (after: Option<Call>)
      requires c.pc.Reserve?
      modifies this
      ensures Did(sub, c, after)
    {
      var held := Get(chain.reserves, c.vault);
      if held < reserveTarget {
        var amount := reserveTarget - held;
        chain := chain.(reserves := chain.reserves[c.vault := held + amount]);
      }
      return Some(c.(pc := Register));
    }

    method RegisterStep(sub: SubmissionId, c: Call) returns (after: Option<Call>)
      requires c.pc.Register?
      modifies this
      ensures Did(sub, c, after)
    {
      if c.strategy !in chain.registry {
        chain := chain.(registry := chain.registry[c.strategy := Anchor(c.vault, c.row.hash)]);
        registered := Bump(registered, c.strategy);
      }
      return Some(c.(pc := Carry));
    }

    /** The next secret the strategy does not have yet, in the order of the rows. */
    method CarryStep(sub: SubmissionId, c: Call) returns (after: Option<Call>)
      requires c.pc.Carry?
      modifies this
      ensures Did(sub, c, after)
    {
      if sub !in submissions || c.strategy !in strategies {
        return None;
      }
      var rows, row := submissions[sub].secrets, strategies[c.strategy];
      for i := 0 to |rows|
        invariant State() == old(State())
        invariant MissingSecret(rows[i..], row.secrets) == MissingSecret(rows, row.secrets)
      {
        assert rows[i..][1..] == rows[i + 1..];
        if rows[i].0 !in row.secrets {
          strategies := strategies[c.strategy := row.(secrets := row.secrets[rows[i].0 := rows[i].1])];
          return Some(c);
        }
      }
      return Some(c.(pc := GoLive));
    }

    method GoLiveStep(sub: SubmissionId, c: Call) returns (after: Option<Call>)
      requires c.pc.GoLive?
      modifies this
      ensures Did(sub, c, after)
    {
      if c.row.live && c.submission.live {
        return Some(c.(pc := Finished));
      }
      if sub !in submissions || c.strategy !in strategies {
        return None;
      }
      strategies := strategies[c.strategy := strategies[c.strategy].(live := true)];
      submissions := submissions[sub := submissions[sub].(live := true)];
      return Some(c.(pc := Finished));
    }

    method Step(sub: SubmissionId, c: Call) returns (after: Option<Call>)
      modifies this
      ensures Did(sub, c, after)
    {
      match c.pc
      case Resolve => after := StrategyStep(sub, c);
      case Wallet => after := WalletStep(sub, c);
      case Gas => after := GasStep(sub, c);
      case Deploy => after := DeployStep(sub, c);
      case WriteVault => after := WriteVaultStep(sub, c);
      case Reserve => after := ReserveStep(sub, c);
      case Register => after := RegisterStep(sub, c);
      case Carry => after := CarryStep(sub, c);
      case GoLive => after := GoLiveStep(sub, c);
      case Finished => after := None;
    }

    /** A publish call that survives for `effects` steps. */
    method Publish(sub: SubmissionId, effects: nat) returns (done: bool)
      modifies this
      ensures !Admitted(old(State()), sub) ==> !done && State() == old(State())
      ensures Admitted(old(State()), sub) ==>
                var (w, c) := RunCall(old(State()), sub, Begun(old(State()), sub), reserveTarget, effects);
                State() == w && (done <==> c.pc.Finished?)
    {
      if sub !in submissions || !submissions[sub].checksPassed || submissions[sub].hash == None {
        return false;
      }
      var c, left := Call(Resolve, submissions[sub], 0, NO_ROW, 0, 0), effects;
      while left > 0
        invariant RunCall(State(), sub, c, reserveTarget, left)
               == RunCall(old(State()), sub, Begun(old(State()), sub), reserveTarget, effects)
      {
        var after := Step(sub, c);
        if after == None {
          return c.pc.Finished?;
        }
        c, left := after.value, left - 1;
      }
      return c.pc.Finished?;
    }
  }
}
