/** The backend's copy of what investors hold, kept from receipts:
    backend/src/routes/strategies.ts, `recordTransfer` to `basisAfterRedemption`. */
module Positions {
  import opened Arithmetic
  import opened Collections
  import opened Vault

  type Hash = nat
  type User = nat
  type Slug = nat

  datatype Kind = DepositKind | WithdrawKind

  datatype Transfer = Transfer(kind: Kind, vault: Address, investor: Address, assets: nat, shares: nat)

  datatype Transaction = Transaction(success: bool, events: seq<Transfer>)

  datatype PositionEvent = PositionEvent(user: User, slug: Slug, kind: Kind, amount: nat, shares: nat, txHash: Hash)

  datatype Position = Position(shares: int, basis: int)

  /** The two tables. */
  datatype Book = Book(positions: map<(User, Slug), Position>, events: seq<PositionEvent>)

  /** What the handler reads and does not write. `vaults` has an entry for each strategy, `None`
      until one is deployed; `chain` is what the node answers, or nothing when it cannot be reached. */
  datatype Context = Context(
    vaults: map<Slug, Option<Address>>,
    wallets: map<User, Address>,
    chain: Option<map<Hash, Transaction>>)

  datatype Request = Request(user: Option<User>, slug: Slug, kind: Kind, txHash: Hash)

  datatype Refusal = Unauthorised | UnknownStrategy | NoVault | AlreadyRecorded | ChainUnreachable | BadTransaction | NotYours

  function Status(r: Refusal): nat {
    match r
    case Unauthorised => 401
    case UnknownStrategy => 404
    case NoVault => 409
    case AlreadyRecorded => 409
    case ChainUnreachable => 500
    case BadTransaction => 400
    case NotYours => 403
  }

  function BasisAfterRedemption(basis: int, held: int, redeemed: int): int {
    if basis <= 0 || held <= 0 || redeemed >= held then 0 else basis - basis * redeemed / held
  }

  /** The position after one recorded event, with the clamp of a redemption the record cannot explain. */
  function Applied(p: Position, kind: Kind, assets: nat, shares: nat): Position {
    var signed := if kind.DepositKind? then p.shares + shares else p.shares - shares;
    Position(if signed < 0 then 0 else signed,
             if kind.DepositKind? then p.basis + assets else BasisAfterRedemption(p.basis, p.shares, shares))
  }

  const NO_POSITION := Position(0, 0)

  function Current(b: Book, key: (User, Slug)): Position {
    if key in b.positions then b.positions[key] else NO_POSITION
  }

  predicate IsRecorded(b: Book, hash: Hash) {
    exists i :: 0 <= i < |b.events| && b.events[i].txHash == hash
  }

  function FindTransfer(events: seq<Transfer>, kind: Kind, vault: Address): Option<Transfer> {
    if events == [] then None
    else if events[0].kind == kind && events[0].vault == vault then Some(events[0])
    else FindTransfer(events[1..], kind, vault)
  }

  /** The checks before the handler waits for the receipt. */
  function Precheck(b: Book, c: Context, r: Request): Option<Refusal> {
    if r.user == None || r.user.value !in c.wallets then Some(Unauthorised)
    else if r.slug !in c.vaults then Some(UnknownStrategy)
    else if c.vaults[r.slug] == None then Some(NoVault)
    else if IsRecorded(b, r.txHash) then Some(AlreadyRecorded)
    else None
  }

  predicate Addressed(c: Context, r: Request) {
    r.user.Some? && r.user.value in c.wallets && r.slug in c.vaults && c.vaults[r.slug].Some?
  }

  /** The checks on the receipt; what passes them is the transfer to record. */
  function FromReceipt(c: Context, r: Request): Result<Transfer, Refusal>
    requires Addressed(c, r)
  {
    if c.chain == None then Err(ChainUnreachable)
    else if r.txHash !in c.chain.value then Err(BadTransaction)
    else
      var tx := c.chain.value[r.txHash];
      if !tx.success then Err(BadTransaction)
      else
        var found := FindTransfer(tx.events, r.kind, c.vaults[r.slug].value);
        if found == None then Err(BadTransaction)
        else if found.value.investor != c.wallets[r.user.value] then Err(NotYours)
        else Ok(found.value)
  }

  function Admit(b: Book, c: Context, r: Request): Result<Transfer, Refusal> {
    var refusal := Precheck(b, c, r);
    if refusal.Some? then Err(refusal.value) else FromReceipt(c, r)
  }

  /** The write transaction. */
  function Written(b: Book, user: User, slug: Slug, t: Transfer, txHash: Hash): (Book, Result<Position, Refusal>) {
    if IsRecorded(b, txHash) then (b, Err(AlreadyRecorded))
    else
      var p := Applied(Current(b, (user, slug)), t.kind, t.assets, t.shares);
      (Book(b.positions[(user, slug) := p], b.events + [PositionEvent(user, slug, t.kind, t.assets, t.shares, txHash)]), Ok(p))
  }

  /** A request served in one go. */
  function Serve(b: Book, c: Context, r: Request): (Book, Result<Position, Refusal>) {
    var admitted := Admit(b, c, r);
    if admitted.Err? then (b, Err(admitted.error)) else Written(b, r.user.value, r.slug, admitted.value, r.txHash)
  }

  /** A request that waits for its receipt while others are served. */
  function ServeWaiting(b: Book, c: Context, r: Request, meanwhile: seq<(Context, Request)>): (Book, Result<Position, Refusal>) {
    var refusal, later := Precheck(b, c, r), ServeAll(b, meanwhile);
    if refusal.Some? then (later, Err(refusal.value))
    else
      var found := FromReceipt(c, r);
      if found.Err? then (later, Err(found.error)) else Written(later, r.user.value, r.slug, found.value, r.txHash)
  }

  function ServeAll(b: Book, requests: seq<(Context, Request)>): Book
    decreases |requests|
  {
    if requests == [] then b else ServeAll(Serve(b, requests[0].0, requests[0].1).0, requests[1..])
  }

  /** The status of a refusal says why, and which of several reasons counts: no session before no such
      strategy, that before no vault or a hash on file, and those before anything about the receipt. */
  lemma StatusSaysWhy(b: Book, c: Context, r: Request)
    ensures var reply := Serve(b, c, r).1;
            var session := r.user.Some? && r.user.value in c.wallets;
            var conflict := r.slug in c.vaults && (c.vaults[r.slug] == None || IsRecorded(b, r.txHash));
            && (reply.Err? && Status(reply.error) == 401 <==> !session)
            && (reply.Err? && Status(reply.error) == 404 <==> session && r.slug !in c.vaults)
            && (reply.Err? && Status(reply.error) == 409 <==> session && conflict)
            && (reply.Err? && Status(reply.error) == 500 <==> session && r.slug in c.vaults && !conflict && c.chain == None)
            && (reply.Err? ==> Status(reply.error) in {400, 401, 403, 404, 409, 500})
  {
  }

  /** A 403 is for a transfer that is there and somebody else's, a 400 for one that is not there. */
  lemma ForeignOrMissing(b: Book, c: Context, r: Request)
    requires Addressed(c, r) && !IsRecorded(b, r.txHash) && c.chain.Some?
    ensures var reply := Serve(b, c, r).1;
            var found := if r.txHash in c.chain.value && c.chain.value[r.txHash].success
                         then FindTransfer(c.chain.value[r.txHash].events, r.kind, c.vaults[r.slug].value) else None;
            && (reply.Err? && Status(reply.error) == 400 <==> found == None)
            && (reply.Err? && Status(reply.error) == 403 <==> found.Some? && found.value.investor != c.wallets[r.user.value])
  {
  }

  class PositionStore {
    var positions: map<(User, Slug), Position>
    var events: seq<PositionEvent>

    function State(): Book
      reads this
    {
      Book(positions, events)
    }

    constructor ()
      ensures State() == Book(map[], [])
    {
      positions, events := map[], [];
    }

    method OnFile(txHash: Hash) returns (found: bool)
      ensures found <==> IsRecorded(State(), txHash)
    {
      for i := 0 to |events|
        invariant forall j :: 0 <= j < i ==> events[j].txHash != txHash
      {
        if events[i].txHash == txHash {
          return true;
        }
      }
      return false;
    }

    /** `meanwhile` are the requests served while this one waits for its receipt. */
    method RecordTransfer(c: Context, r: Request, meanwhile: seq<(Context, Request)>) returns (reply: Result<Position, Refusal>)
      modifies this
      ensures (State(), reply) == ServeWaiting(old(State()), c, r, meanwhile)
      ensures meanwhile == [] ==> (State(), reply) == Serve(old(State()), c, r)
      decreases |meanwhile|, 1
    {
      var refusal := CheckRequest(c, r);
      ServeOthers(meanwhile);
      if refusal.Some? {
        return Err(refusal.value);
      }
      if c.chain == None {
        return Err(ChainUnreachable);
      }
      if r.txHash !in c.chain.value {
        return Err(BadTransaction);
      }
      var tx := c.chain.value[r.txHash];
      if !tx.success {
        return Err(BadTransaction);
      }
      var found := FindTransfer(tx.events, r.kind, c.vaults[r.slug].value);
      if found == None {
        return Err(BadTransaction);
      }
      if found.value.investor != c.wallets[r.user.value] {
        return Err(NotYours);
      }
      reply := ApplyTransfer(r.user.value, r.slug, found.value, r.txHash);
    }

    method CheckRequest(c: Context, r: Request) returns (refusal: Option<Refusal>)
      ensures refusal == Precheck(State(), c, r)
    {
      if r.user == None || r.user.value !in c.wallets {
        return Some(Unauthorised);
      }
      if r.slug !in c.vaults {
        return Some(UnknownStrategy);
      }
      if c.vaults[r.slug] == None {
        return Some(NoVault);
      }
      var onFile := OnFile(r.txHash);
      return if onFile then Some(AlreadyRecorded) else None;
    }

    method ServeOthers(requests: seq<(Context, Request)>)
      modifies this
      ensures State() == ServeAll(old(State()), requests)
      decreases |requests|, 0
    {
      if requests != [] {
        var _ := RecordTransfer(requests[0].0, requests[0].1, []);
        ServeOthers(requests[1..]);
      }
    }

    /** The write transaction, which looks for the hash once more. */
    method ApplyTransfer(user: User, slug: Slug, event: Transfer, txHash: Hash) returns (reply: Result<Position, Refusal>)
      modifies this
      ensures (State(), reply) == Written(old(State()), user, slug, event, txHash)
    {
      var onFile := OnFile(txHash);
      if onFile {
        return Err(AlreadyRecorded);
      }
      var position := if (user, slug) in positions then positions[(user, slug)] else NO_POSITION;
      var nextShares, nextBasis;
      if event.kind.DepositKind? {
        nextShares, nextBasis := position.shares + event.shares, position.basis + event.assets;
      } else {
        nextShares := position.shares - event.shares;
        nextBasis := BasisAfterRedemption(position.basis, position.shares, event.shares);
      }
      if nextShares < 0 {
        nextShares := 0;
      }
      events := events + [PositionEvent(user, slug, event.kind, event.assets, event.shares, txHash)];
      positions := positions[(user, slug) := Position(nextShares, nextBasis)];
      return Ok(Position(nextShares, nextBasis));
    }
  }

  // ---------------------------------------------------------------- the record behind a position

  /** The events on file for one position. */
  function EventsOf(events: seq<PositionEvent>, key: (User, Slug)): seq<PositionEvent> {
    if events == [] then []
    else
      var init, last := events[..|events| - 1], events[|events| - 1];
      EventsOf(init, key) + if (last.user, last.slug) == key then [last] else []
  }

  function Folded(events: seq<PositionEvent>): Position {
    if events == [] then NO_POSITION
    else
      var last := events[|events| - 1];
      Applied(Folded(events[..|events| - 1]), last.kind, last.amount, last.shares)
  }

  ghost predicate HashesOnce(events: seq<PositionEvent>) {
    forall i, j :: 0 <= i < j < |events| ==> events[i].txHash != events[j].txHash
  }

  /** Every position is explained by the events on file, and no hash is on file twice. */
  ghost predicate Explained(b: Book) {
    && HashesOnce(b.events)
    && forall key :: Current(b, key) == Folded(EventsOf(b.events, key))
  }

  lemma ServeStaysExplained(b: Book, c: Context, r: Request)
    requires Explained(b)
    ensures Explained(Serve(b, c, r).0)
  {
    var b' := Serve(b, c, r).0;
    if b' != b {
      assert b'.events[..|b.events|] == b.events;
      forall key ensures Current(b', key) == Folded(EventsOf(b'.events, key)) {
        var of := EventsOf(b'.events, key);
        assert Current(b, key) == Folded(EventsOf(b.events, key));
        assert of != EventsOf(b.events, key) ==> of[..|of| - 1] == EventsOf(b.events, key);
      }
    }
  }

  /** A request either adds one event with its own hash, for a hash not yet on file, or changes
      nothing; in particular a replayed hash changes nothing, whoever presents it. */
  lemma ReplayChangesNothing(b: Book, c: Context, r: Request)
    ensures IsRecorded(b, r.txHash) ==> Serve(b, c, r).0 == b && Serve(b, c, r).1.Err?
    ensures Serve(b, c, r).1.Ok? ==>
              && !IsRecorded(b, r.txHash) && IsRecorded(Serve(b, c, r).0, r.txHash)
              && |Serve(b, c, r).0.events| == |b.events| + 1
    ensures Serve(b, c, r).1.Err? ==> Serve(b, c, r).0 == b
  {
    if Serve(b, c, r).1.Ok? {
      assert Serve(b, c, r).0.events[|b.events|].txHash == r.txHash;
    }
  }

  lemma {:induction false} FindTransferMeans(events: seq<Transfer>, kind: Kind, vault: Address)
    ensures var found := FindTransfer(events, kind, vault);
            && (found == None <==> forall i :: 0 <= i < |events| ==> !(events[i].kind == kind && events[i].vault == vault))
            && (found.Some? ==> found.value in events && found.value.kind == kind && found.value.vault == vault)
  {
    if events != [] && !(events[0].kind == kind && events[0].vault == vault) {
      FindTransferMeans(events[1..], kind, vault);
      assert forall i :: 0 < i < |events| ==> events[i] == events[1..][i - 1];
      if FindTransfer(events, kind, vault) == None {
        forall i | 0 <= i < |events| ensures !(events[i].kind == kind && events[i].vault == vault) {
          assert i > 0 ==> events[i] == events[1..][i - 1];
        }
      }
    }
  }

  /** Only a transfer that really happened is written down, and only for whom it belongs to: it is
      one of a successful transaction, of the kind claimed, with the strategy's own vault, by the
      caller's own wallet; its amounts are the receipt's, not the caller's. */
  lemma AcceptedIsTheCallersOwn(b: Book, c: Context, r: Request)
    requires Serve(b, c, r).1.Ok?
    ensures r.user.Some? && r.user.value in c.wallets && r.slug in c.vaults && c.chain.Some? && r.txHash in c.chain.value
    ensures var tx := c.chain.value[r.txHash];
            && tx.success
            && exists t :: t in tx.events && t.kind == r.kind && c.vaults[r.slug] == Some(t.vault)
                 && t.investor == c.wallets[r.user.value]
                 && Serve(b, c, r).0.events == b.events + [PositionEvent(r.user.value, r.slug, r.kind, t.assets, t.shares, r.txHash)]
  {
    var t := Admit(b, c, r).value;
    FindTransferMeans(c.chain.value[r.txHash].events, r.kind, c.vaults[r.slug].value);
    assert t in c.chain.value[r.txHash].events && t.kind == r.kind;
  }

  lemma RecordsStay(b: Book, c: Context, r: Request, hash: Hash)
    requires IsRecorded(b, hash)
    ensures IsRecorded(Serve(b, c, r).0, hash)
  {
    var i :| 0 <= i < |b.events| && b.events[i].txHash == hash;
    assert Serve(b, c, r).0.events[i] == b.events[i];
  }

  lemma {:induction false} AllRecordsStay(b: Book, requests: seq<(Context, Request)>, hash: Hash)
    requires IsRecorded(b, hash)
    ensures IsRecorded(ServeAll(b, requests), hash)
    decreases |requests|
  {
    if requests != [] {
      RecordsStay(b, requests[0].0, requests[0].1, hash);
      AllRecordsStay(Serve(b, requests[0].0, requests[0].1).0, requests[1..], hash);
    }
  }

  /** Two requests at once are as good as one after the other: one that waits for its receipt leaves
      the tables as if it had been served at the end of its wait. Only its refusal can differ. */
  lemma WaitingIsServingLater(b: Book, c: Context, r: Request, meanwhile: seq<(Context, Request)>)
    ensures var waited, later := ServeWaiting(b, c, r, meanwhile), Serve(ServeAll(b, meanwhile), c, r);
            && waited.0 == later.0 && (waited.1.Ok? <==> later.1.Ok?) && (waited.1.Ok? ==> waited.1 == later.1)
  {
    if IsRecorded(b, r.txHash) {
      AllRecordsStay(b, meanwhile, r.txHash);
    }
  }

  lemma {:induction false} EveryRunStaysExplained(b: Book, requests: seq<(Context, Request)>)
    requires Explained(b)
    ensures Explained(ServeAll(b, requests))
    decreases |requests|
  {
    if requests != [] {
      ServeStaysExplained(b, requests[0].0, requests[0].1);
      EveryRunStaysExplained(Serve(b, requests[0].0, requests[0].1).0, requests[1..]);
    }
  }

  // ---------------------------------------------------------------- shares: a clamped walk

  function Signed(e: PositionEvent): int { if e.kind.DepositKind? then e.shares else 0 - e.shares }

  function Net(events: seq<PositionEvent>): int {
    if events == [] then 0 else Net(events[..|events| - 1]) + Signed(events[|events| - 1])
  }

  /** How far the record ever ran below zero. */
  function Shortfall(events: seq<PositionEvent>): nat {
    if events == [] then 0
    else
      var before := Shortfall(events[..|events| - 1]);
      if -Net(events) > before then -Net(events) else before
  }

  lemma {:induction false} ShortfallIsDeepestPrefix(events: seq<PositionEvent>)
    ensures Shortfall(events) == 0 <==> forall k :: 0 <= k <= |events| ==> Net(events[..k]) >= 0
  {
    if events != [] {
      var init := events[..|events| - 1];
      ShortfallIsDeepestPrefix(init);
      assert events[..|events|] == events;
      assert forall k :: 0 <= k <= |init| ==> events[..k] == init[..k];
    }
  }

  /** A position is the signed sum of its events, lifted by the deepest shortfall on the way. So it
      is the signed sum exactly when no redemption was ever recorded ahead of what it redeems. */
  lemma {:induction false} PositionIsLiftedSum(events: seq<PositionEvent>)
    ensures Folded(events).shares == Net(events) + Shortfall(events)
    ensures Folded(events).shares == Net(events) <==> forall k :: 0 <= k <= |events| ==> Net(events[..k]) >= 0
  {
    if events != [] {
      PositionIsLiftedSum(events[..|events| - 1]);
    }
    ShortfallIsDeepestPrefix(events);
  }

  // ---------------------------------------------------------------- against the chain

  /** What a complete record in chain order holds for one investor. */
  function TransfersOf(log: seq<Event>, who: Address): seq<(Kind, nat, nat)> {
    if log == [] then [] else TransferIn(log[0], who) + TransfersOf(log[1..], who)
  }

  function TransferIn(e: Event, who: Address): seq<(Kind, nat, nat)> {
    match e
    case DepositedEvent(investor, assets, shares, _, _) => if investor == who then [(DepositKind, assets, shares)] else []
    case WithdrawnEvent(investor, shares, assets, _, _) => if investor == who then [(WithdrawKind, assets, shares)] else []
    case _ => []
  }

  function FoldFrom(p: Position, transfers: seq<(Kind, nat, nat)>): Position
    decreases |transfers|
  {
    if transfers == [] then p
    else FoldFrom(Applied(p, transfers[0].0, transfers[0].1, transfers[0].2), transfers[1..])
  }

  ghost predicate NeverClamped(p: Position, transfers: seq<(Kind, nat, nat)>)
    decreases |transfers|
  {
    transfers == [] ||
    (&& (transfers[0].0.WithdrawKind? ==> transfers[0].2 <= p.shares)
     && NeverClamped(Applied(p, transfers[0].0, transfers[0].1, transfers[0].2), transfers[1..]))
  }

  lemma HeadApart(a: seq<Event>, b: seq<Event>)
    requires a != []
    ensures (a + b)[0] == a[0] && (a + b)[1..] == a[1..] + b
  {
  }

  lemma {:induction false} TransfersAppend(a: seq<Event>, b: seq<Event>, who: Address)
    ensures TransfersOf(a + b, who) == TransfersOf(a, who) + TransfersOf(b, who)
  {
    if a == [] {
      assert a + b == b;
    } else {
      TransfersAppend(a[1..], b, who);
      HeadApart(a, b);
      assert TransferIn(a[0], who) + (TransfersOf(a[1..], who) + TransfersOf(b, who))
             == TransferIn(a[0], who) + TransfersOf(a[1..], who) + TransfersOf(b, who);
    }
  }

  lemma StepFollowsTheChain(p: Position, l: Ledger, action: Action, who: Address)
    requires p.shares == l.Held(who)
    ensures |TransfersOf(Emitted(l, action), who)| <= 1
    ensures FoldFrom(p, TransfersOf(Emitted(l, action), who)).shares == After(l, action).Held(who)
    ensures NeverClamped(p, TransfersOf(Emitted(l, action), who))
  {
    var emitted := Emitted(l, action);
    if emitted != [] {
      assert TransfersOf(emitted, who) == TransfersOf(emitted, who) + TransfersOf(emitted[1..], who);
    }
  }

  /** Recorded completely and in chain order, a position has exactly the shares the chain has, at
      the end of every run of the vault, and the clamp never fires on the way. */
  lemma {:induction false} CompleteRecordIsTheChain(p: Position, l: Ledger, actions: seq<Action>, who: Address)
    requires p.shares == l.Held(who)
    ensures FoldFrom(p, TransfersOf(Log(l, actions), who)).shares == Run(l, actions).Held(who)
    ensures NeverClamped(p, TransfersOf(Log(l, actions), who))
    decreases |actions|
  {
    if actions != [] {
      var emitted, next := Emitted(l, actions[0]), After(l, actions[0]);
      StepFollowsTheChain(p, l, actions[0], who);
      TransfersAppend(emitted, Log(next, actions[1..]), who);
      var mine := TransfersOf(emitted, who);
      var mid := FoldFrom(p, mine);
      CompleteRecordIsTheChain(mid, next, actions[1..], who);
      if mine == [] {
        assert mine + TransfersOf(Log(next, actions[1..]), who) == TransfersOf(Log(next, actions[1..]), who);
      } else {
        assert mine[1..] == [];
        assert (mine + TransfersOf(Log(next, actions[1..]), who))[1..] == TransfersOf(Log(next, actions[1..]), who);
      }
    }
  }

  function AsTransfer(e: PositionEvent): (Kind, nat, nat) { (e.kind, e.amount, e.shares) }

  lemma {:induction false} FoldFromIsFolded(events: seq<PositionEvent>, transfers: seq<(Kind, nat, nat)>)
    requires |transfers| == |events| && forall i :: 0 <= i < |events| ==> transfers[i] == AsTransfer(events[i])
    ensures FoldFrom(NO_POSITION, transfers) == Folded(events)
  {
    if events != [] {
      var n := |events| - 1;
      FoldFromIsFolded(events[..n], transfers[..n]);
      assert transfers == transfers[..n] + [transfers[n]];
      FoldFromAppend(NO_POSITION, transfers[..n], transfers[n]);
    }
  }

  lemma {:induction false} FoldFromAppend(p: Position, ts: seq<(Kind, nat, nat)>, t: (Kind, nat, nat))
    ensures FoldFrom(p, ts + [t]) == Applied(FoldFrom(p, ts), t.0, t.1, t.2)
    decreases |ts|
  {
    if ts != [] {
      assert (ts + [t])[0] == ts[0] && (ts + [t])[1..] == ts[1..] + [t];
      FoldFromAppend(Applied(p, ts[0].0, ts[0].1, ts[0].2), ts[1..], t);
    } else {
      assert (ts + [t])[1..] == [];
    }
  }

  /** The book's version of the same: whatever requests led to it, if the events on file for a
      position are the investor's transfers in chain order, the position is the holding. */
  lemma StoredPositionIsTheHolding(b: Book, key: (User, Slug), operator: Address, actions: seq<Action>, who: Address)
    requires Explained(b)
    requires var mine, transfers := EventsOf(b.events, key), TransfersOf(Log(NewVault(operator), actions), who);
             |mine| == |transfers| && forall i :: 0 <= i < |mine| ==> transfers[i] == AsTransfer(mine[i])
    ensures Current(b, key).shares == Run(NewVault(operator), actions).Held(who)
  {
    FoldFromIsFolded(EventsOf(b.events, key), TransfersOf(Log(NewVault(operator), actions), who));
    CompleteRecordIsTheChain(NO_POSITION, NewVault(operator), actions, who);
  }

  // ---------------------------------------------------------------- records in any order, with gaps

  function Worth(t: (Kind, nat, nat)): int { if t.0.DepositKind? then t.2 else 0 - t.2 }

  function Sum(transfers: seq<(Kind, nat, nat)>): int {
    if transfers == [] then 0 else Worth(transfers[0]) + Sum(transfers[1..])
  }

  lemma {:induction false} SumAppend(a: seq<(Kind, nat, nat)>, b: seq<(Kind, nat, nat)>)
    ensures Sum(a + b) == Sum(a) + Sum(b)
  {
    if a == [] {
      assert a + b == b;
    } else {
      SumAppend(a[1..], b);
      assert (a + b)[0] == a[0] && (a + b)[1..] == a[1..] + b;
    }
  }

  lemma OneTakenOut<T>(s: seq<T>, i: nat)
    requires i < |s|
    ensures multiset(s[..i] + s[i + 1..]) == multiset(s) - multiset{s[i]}
  {
    assert s == s[..i] + [s[i]] + s[i + 1..];
  }

  lemma {:induction false} SumWithout(s: seq<(Kind, nat, nat)>, i: nat)
    requires i < |s|
    ensures Sum(s) == Worth(s[i]) + Sum(s[..i] + s[i + 1..])
    decreases i
  {
    if i == 0 {
      assert s[..0] + s[1..] == s[1..];
    } else {
      var tail, rest := s[1..], s[..i] + s[i + 1..];
      SumWithout(tail, i - 1);
      assert rest[0] == s[0] && rest[1..] == tail[..i - 1] + tail[i..];
    }
  }

  /** The sum does not depend on the order. */
  lemma {:induction false} SumOfShuffled(a: seq<(Kind, nat, nat)>, b: seq<(Kind, nat, nat)>)
    requires multiset(a) == multiset(b)
    ensures Sum(a) == Sum(b)
    decreases |a|
  {
    if a == [] {
      assert |multiset(b)| == |b|;
    } else {
      assert a[0] in multiset(b);
      var i :| 0 <= i < |b| && b[i] == a[0];
      OneTakenOut(a, 0);
      OneTakenOut(b, i);
      SumWithout(b, i);
      SumOfShuffled(a[..0] + a[1..], b[..i] + b[i + 1..]);
      assert a[..0] + a[1..] == a[1..];
    }
  }

  lemma {:induction false} UnclampedIsSum(p: Position, transfers: seq<(Kind, nat, nat)>)
    requires p.shares >= 0 && NeverClamped(p, transfers)
    ensures FoldFrom(p, transfers).shares == p.shares + Sum(transfers)
    decreases |transfers|
  {
    if transfers != [] {
      UnclampedIsSum(Applied(p, transfers[0].0, transfers[0].1, transfers[0].2), transfers[1..]);
    }
  }

  function AsTransfers(events: seq<PositionEvent>): seq<(Kind, nat, nat)> {
    seq(|events|, i requires 0 <= i < |events| => AsTransfer(events[i]))
  }

  lemma {:induction false} NetIsSum(events: seq<PositionEvent>)
    ensures Net(events) == Sum(AsTransfers(events))
  {
    if events != [] {
      var init, last := events[..|events| - 1], events[|events| - 1];
      NetIsSum(init);
      assert AsTransfers(events) == AsTransfers(init) + [AsTransfer(last)];
      SumAppend(AsTransfers(init), [AsTransfer(last)]);
    }
  }

  /** Whatever requests led to it, in whatever order: a position differs from the holding by the
      transfers that are missing from the record and by how far the record ever ran below zero. */
  lemma PositionAgainstTheChain(b: Book, key: (User, Slug), operator: Address, actions: seq<Action>, who: Address,
                                missing: seq<(Kind, nat, nat)>)
    requires Explained(b)
    requires multiset(AsTransfers(EventsOf(b.events, key)) + missing) == multiset(TransfersOf(Log(NewVault(operator), actions), who))
    ensures Current(b, key).shares
            == Run(NewVault(operator), actions).Held(who) - Sum(missing) + Shortfall(EventsOf(b.events, key))
  {
    var mine, transfers := EventsOf(b.events, key), TransfersOf(Log(NewVault(operator), actions), who);
    PositionIsLiftedSum(mine);
    NetIsSum(mine);
    SumAppend(AsTransfers(mine), missing);
    SumOfShuffled(AsTransfers(mine) + missing, transfers);
    CompleteRecordIsTheChain(NO_POSITION, NewVault(operator), actions, who);
    UnclampedIsSum(NO_POSITION, transfers);
  }

  /** A complete record gives the holding exactly when no redemption was recorded ahead of what it
      redeems. */
  lemma CompleteRecordAgreesIff(b: Book, key: (User, Slug), operator: Address, actions: seq<Action>, who: Address)
    requires Explained(b)
    requires multiset(AsTransfers(EventsOf(b.events, key))) == multiset(TransfersOf(Log(NewVault(operator), actions), who))
    ensures var mine := EventsOf(b.events, key);
            Current(b, key).shares == Run(NewVault(operator), actions).Held(who)
            <==> forall k :: 0 <= k <= |mine| ==> Net(mine[..k]) >= 0
  {
    var mine := EventsOf(b.events, key);
    assert AsTransfers(mine) + [] == AsTransfers(mine);
    PositionAgainstTheChain(b, key, operator, actions, who, []);
    ShortfallIsDeepestPrefix(mine);
  }

  /** One investor's deposit and redemption, each in its own transaction. */
  function InAndOut(vault: Address, investor: Address, amount: nat): map<Hash, Transaction> {
    map[1 := Transaction(true, [Transfer(DepositKind, vault, investor, amount, amount)]),
        2 := Transaction(true, [Transfer(WithdrawKind, vault, investor, amount, amount)])]
  }

  /** A deposit of five is redeemed in full. Recorded the other way round, as two requests may arrive,
      both are accepted and leave five shares that the chain does not have. */
  lemma WrongOrderDiverges(operator: Address, c: Context, user: User, slug: Slug, vault: Address)
    requires user in c.wallets && c.wallets[user] == 1 && slug in c.vaults && c.vaults[slug] == Some(vault)
    requires c.chain == Some(InAndOut(vault, 1, 5))
    ensures var actions := [Deposit(1, 5), Withdraw(1, 5)];
            && Run(NewVault(operator), actions).Held(1) == 0
            && TransfersOf(Log(NewVault(operator), actions), 1) == [(DepositKind, 5, 5), (WithdrawKind, 5, 5)]
    ensures var (early, first) := Serve(Book(map[], []), c, Request(Some(user), slug, WithdrawKind, 2));
            var (late, second) := Serve(early, c, Request(Some(user), slug, DepositKind, 1));
            first.Ok? && second.Ok? && Current(late, (user, slug)).shares == 5
  {
    var l := NewVault(operator);
    var deposited := Ledger(operator, 5, 5, 5, map[1 := 5]);
    assert After(l, Deposit(1, 5)) == deposited;
    RunOfTwo(l, Deposit(1, 5), Withdraw(1, 5));
    LogOfTwo(l, Deposit(1, 5), Withdraw(1, 5));
    TransfersAppend(Emitted(l, Deposit(1, 5)), Emitted(deposited, Withdraw(1, 5)), 1);
    assert !IsRecorded(Serve(Book(map[], []), c, Request(Some(user), slug, WithdrawKind, 2)).0, 1);
  }

  // ---------------------------------------------------------------- basis

  function Deposits(events: seq<PositionEvent>): nat {
    if events == [] then 0
    else Deposits(events[..|events| - 1]) + if events[|events| - 1].kind.DepositKind? then events[|events| - 1].amount else 0
  }

  lemma RedeemedBasis(basis: int, held: int, redeemed: nat)
    requires basis >= 0
    ensures 0 <= BasisAfterRedemption(basis, held, redeemed) <= basis
  {
    if basis > 0 && held > 0 && redeemed < held {
      MulMonotone(redeemed, held, basis);
      MulMonotone(0, redeemed, basis);
      DivAtMost(basis * redeemed, held, basis) by { Distribute(basis, 1, held); }
      DivAtLeast(basis * redeemed, held, 0);
    }
  }

  /** Always, in any order of recording: no shares means no basis, and the basis never exceeds what
      was deposited. The vault mints and burns at least one share per transfer. */
  lemma {:induction false} BasisWithinDeposits(events: seq<PositionEvent>)
    requires forall e <- events :: e.shares > 0
    ensures var p := Folded(events);
            && p.shares >= 0
            && (p.shares == 0 ==> p.basis == 0)
            && 0 <= p.basis <= Deposits(events)
  {
    if events != [] {
      var init, last := events[..|events| - 1], events[|events| - 1];
      BasisWithinDeposits(init);
      assert last in events;
      if last.kind.WithdrawKind? {
        RedeemedBasis(Folded(init).basis, Folded(init).shares, last.shares);
      }
    }
  }

  /** What a redemption takes off the basis: the exact proportional part rounded down, and all of it
      where nothing is left to hold. */
  predicate FairRelease(held: Position, redeemed: nat, released: int) {
    if held.basis <= 0 || held.shares <= 0 || redeemed >= held.shares then released == held.basis
    else released * held.shares <= held.basis * redeemed < (released + 1) * held.shares
  }

  lemma RedemptionIsFair(p: Position, redeemed: nat)
    ensures FairRelease(p, redeemed, p.basis - BasisAfterRedemption(p.basis, p.shares, redeemed))
  {
    if p.basis > 0 && p.shares > 0 && redeemed < p.shares {
      DivBounds(p.basis * redeemed, p.shares);
      Distribute(p.basis * redeemed / p.shares, 1, p.shares);
    }
  }

  /** What the redemptions of a record took off its basis, one after the other. */
  function Released(events: seq<PositionEvent>): int {
    if events == [] then 0
    else
      var init := events[..|events| - 1];
      Released(init) + if events[|events| - 1].kind.WithdrawKind? then Folded(init).basis - Folded(events).basis else 0
  }

  ghost predicate FairAt(events: seq<PositionEvent>, i: nat)
    requires i < |events|
  {
    events[i].kind.WithdrawKind? ==>
      FairRelease(Folded(events[..i]), events[i].shares, Folded(events[..i]).basis - Folded(events[..i + 1]).basis)
  }

  /** In any record, in any order: the basis is all that was deposited less what the redemptions took
      off, each its fair part of what was there before it. */
  lemma {:induction false} BasisIsDepositsLessReleases(events: seq<PositionEvent>)
    ensures Folded(events).basis == Deposits(events) - Released(events)
    ensures forall i :: 0 <= i < |events| ==> FairAt(events, i)
  {
    if events != [] {
      var n, init, last := |events| - 1, events[..|events| - 1], events[|events| - 1];
      BasisIsDepositsLessReleases(init);
      RedemptionIsFair(Folded(init), last.shares);
      assert events[..n + 1] == events;
      forall i | 0 <= i < |events| ensures FairAt(events, i) {
        if i < n {
          assert FairAt(init, i);
          assert init[..i] == events[..i] && init[..i + 1] == events[..i + 1];
        }
      }
    }
  }

  /** Without redemptions basis and shares are what was deposited and minted. */
  lemma {:induction false} DepositsAddUp(events: seq<PositionEvent>)
    requires forall e <- events :: e.kind.DepositKind?
    ensures Folded(events) == Position(Net(events), Deposits(events)) && Net(events) >= 0
  {
    if events != [] {
      assert events[|events| - 1] in events;
      DepositsAddUp(events[..|events| - 1]);
    }
  }

  /** An accepted transfer moves the caller's position by the receipt's amounts, and no other: a deposit
      raises shares and basis by what it minted and paid, a redemption takes off the shares that are
      there and its fair part of the basis. */
  lemma AcceptedMovesOnePosition(b: Book, c: Context, r: Request)
    requires Explained(b) && Serve(b, c, r).1.Ok?
    ensures Addressed(c, r) && FromReceipt(c, r).Ok?
    ensures var (b', reply) := Serve(b, c, r);
            var key, t := (r.user.value, r.slug), FromReceipt(c, r).value;
            var before := Current(b, key);
            && t.kind == r.kind && Current(b', key) == reply.value
            && (forall other :: other != key ==> Current(b', other) == Current(b, other))
            && (if r.kind.DepositKind? then reply.value == Position(before.shares + t.shares, before.basis + t.assets)
                else && reply.value.shares == (if t.shares <= before.shares then before.shares - t.shares else 0)
                     && FairRelease(before, t.shares, before.basis - reply.value.basis))
  {
    var key := (r.user.value, r.slug);
    PositionIsLiftedSum(EventsOf(b.events, key));
    ShortfallCovers(EventsOf(b.events, key));
    FindTransferMeans(c.chain.value[r.txHash].events, r.kind, c.vaults[r.slug].value);
    RedemptionIsFair(Current(b, key), FromReceipt(c, r).value.shares);
  }

  lemma ShortfallCovers(events: seq<PositionEvent>)
    ensures Net(events) + Shortfall(events) >= 0
  {
  }

  lemma TransfersMoveShares(l: Ledger, action: Action)
    ensures forall e <- Emitted(l, action) ::
              (e.DepositedEvent? ==> e.shares > 0 && e.assets > 0) && (e.WithdrawnEvent? ==> e.shares > 0)
  {
  }

  /** Successive partial redemptions of a position. */
  function Redeemed(p: Position, redemptions: seq<nat>): Position {
    if redemptions == [] then p
    else
      var q := Redeemed(p, redemptions[..|redemptions| - 1]);
      Applied(q, WithdrawKind, 0, redemptions[|redemptions| - 1])
  }

  ghost predicate AllPartial(p: Position, redemptions: seq<nat>) {
    redemptions == [] ||
    (&& AllPartial(p, redemptions[..|redemptions| - 1])
     && 0 < redemptions[|redemptions| - 1] < Redeemed(p, redemptions[..|redemptions| - 1]).shares)
  }

  lemma PartialStep(basis: nat, held: nat, redeemed: nat)
    requires 0 < redeemed < held
    ensures var left := BasisAfterRedemption(basis, held, redeemed);
            basis * (held - redeemed) <= left * held < basis * (held - redeemed) + held
  {
    if basis > 0 {
      DivBounds(basis * redeemed, held);
      Distribute(basis, basis * redeemed / held, held);
    }
  }

  lemma ScaledStep(b0: int, h0: int, b: int, h: int, b': int, h': int, k: int)
    requires 0 < h' < h && h0 > 0 && k >= 0
    requires b0 * h <= b * h0 <= b0 * h + k * h0
    requires b * h' <= b' * h < b * h' + h
    ensures b0 * h' <= b' * h0 < b0 * h' + (k + 1) * h0
  {
    RatioTransitive(b0, h0, b, h, b', h');
    // less the k units kept back so far: (b' - 1 - k) / h' < (b - k) / h <= b0 / h0
    MulMonotone(h', h, k);
    Distribute(b', k + 1, h);
    Distribute(k, 1, h);
    Distribute(b, k, h');
    Distribute(b, k, h0);
    RatioTransitiveStrict(b' - (k + 1), h', b - k, h, b0, h0);
    Distribute(b', k + 1, h0);
  }

  /** After k partial redemptions with no deposit between them, the basis is the exact proportional
      part of the first one, plus less than k base units: each redemption keeps back less than one. */
  lemma {:induction false} BasisAfterPartialRedemptions(p: Position, redemptions: seq<nat>)
    requires p.basis >= 0 && p.shares > 0 && AllPartial(p, redemptions)
    ensures var q, k := Redeemed(p, redemptions), |redemptions|;
            && 0 < q.shares <= p.shares && q.basis >= 0
            && p.basis * q.shares <= q.basis * p.shares
            && (if k == 0 then q == p else q.basis * p.shares < p.basis * q.shares + k * p.shares)
  {
    if redemptions != [] {
      var init, r := redemptions[..|redemptions| - 1], redemptions[|redemptions| - 1];
      BasisAfterPartialRedemptions(p, init);
      var q := Redeemed(p, init);
      RedeemedBasis(q.basis, q.shares, r);
      PartialStep(q.basis, q.shares, r);
      ScaledStep(p.basis, p.shares, q.basis, q.shares, BasisAfterRedemption(q.basis, q.shares, r), q.shares - r, |init|);
    }
  }
}
