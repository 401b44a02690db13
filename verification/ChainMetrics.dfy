/** A vault read back from its own event log: backend/src/lib/chain-metrics.ts, `foldLogs`. */
module ChainMetrics {
  import opened Collections
  import opened ShareMath
  import opened Vault

  /** An event with the place the chain gave it. */
  datatype LogEntry = LogEntry(block: nat, index: nat, event: Event)

  datatype ChainNavPoint = ChainNavPoint(t: int, navPerShare: int, totalAssets: nat, totalShares: nat)

  datatype VaultReading = VaultReading(
    series: seq<ChainNavPoint>,
    investorCount: nat,
    totalAssets: nat,
    totalShares: nat,
    navPerShare: int,
    updatedAt: Option<int>)

  predicate Precedes(a: LogEntry, b: LogEntry) {
    a.block < b.block || (a.block == b.block && a.index < b.index)
  }

  predicate IsNavEvent(e: Event) {
    e.PnlAppliedEvent? || e.DepositedEvent? || e.WithdrawnEvent?
  }

  function NavEntries(logs: seq<LogEntry>): seq<LogEntry> {
    if logs == [] then []
    else
      var init, last := logs[..|logs| - 1], logs[|logs| - 1];
      NavEntries(init) + if IsNavEvent(last.event) then [last] else []
  }

  /** A later element goes after its equals, which keeps the sort stable. */
  function InsertEntry(sorted: seq<LogEntry>, x: LogEntry): seq<LogEntry> {
    if sorted == [] || !Precedes(x, sorted[|sorted| - 1]) then sorted + [x]
    else InsertEntry(sorted[..|sorted| - 1], x) + [sorted[|sorted| - 1]]
  }

  function Sorted(logs: seq<LogEntry>): seq<LogEntry> {
    if logs == [] then [] else InsertEntry(Sorted(logs[..|logs| - 1]), logs[|logs| - 1])
  }

  // ---------------------------------------------------------------- the fold

  datatype FoldState = FoldState(
    assets: nat,
    shares: nat,
    held: map<Address, int>,
    series: seq<ChainNavPoint>,
    updatedAt: Option<int>)

  const EMPTY_FOLD := FoldState(0, 0, map[], [], None)

  function Tally(held: map<Address, int>, who: Address): int {
    if who in held then held[who] else 0
  }

  function FoldOne(st: FoldState, entry: LogEntry, times: map<nat, int>): FoldState {
    if entry.block !in times || !IsNavEvent(entry.event) then st
    else
      var t := times[entry.block];
      match entry.event
      case DepositedEvent(who, _, shares, managed, supply) =>
        FoldState(managed, supply, st.held[who := Tally(st.held, who) + shares], st.series, Some(t))
      case WithdrawnEvent(who, shares, _, managed, supply) =>
        FoldState(managed, supply, st.held[who := Tally(st.held, who) - shares], st.series, Some(t))
      case PnlAppliedEvent(_, managed, _, nav) =>
        FoldState(managed, st.shares, st.held, st.series + [ChainNavPoint(t, nav, managed, st.shares)], Some(t))
      case _ => st
  }

  function Fold(st: FoldState, logs: seq<LogEntry>, times: map<nat, int>): FoldState
    decreases |logs|
  {
    if logs == [] then st else Fold(FoldOne(st, logs[0], times), logs[1..], times)
  }

  function Positive(held: map<Address, int>): set<Address> {
    set a | a in held && held[a] > 0
  }

  function Reading(logs: seq<LogEntry>, times: map<nat, int>): VaultReading {
    var st := Fold(EMPTY_FOLD, Sorted(NavEntries(logs)), times);
    VaultReading(st.series, |Positive(st.held)|, st.assets, st.shares,
                 NavPerShare(VaultState(st.assets, st.shares)), st.updatedAt)
  }

  method FoldLogs(logs: seq<LogEntry>, times: map<nat, int>) returns (reading: VaultReading)
    ensures reading == Reading(logs, times)
  {
    var ordered := Sorted(NavEntries(logs));
    var totalAssets, totalShares: nat := 0, 0;
    var held: map<Address, int> := map[];
    var series: seq<ChainNavPoint> := [];
    var updatedAt := None;
    for i := 0 to |ordered|
      invariant Fold(FoldState(totalAssets, totalShares, held, series, updatedAt), ordered[i..], times)
             == Fold(EMPTY_FOLD, ordered, times)
    {
      assert ordered[i..][0] == ordered[i] && ordered[i..][1..] == ordered[i + 1..];
      var entry := ordered[i];
      if entry.block !in times {
        continue;
      }
      match entry.event
      case DepositedEvent(who, _, shares, managed, supply) =>
        updatedAt := Some(times[entry.block]);
        totalAssets, totalShares := managed, supply;
        held := held[who := Tally(held, who) + shares];
      case WithdrawnEvent(who, shares, _, managed, supply) =>
        updatedAt := Some(times[entry.block]);
        totalAssets, totalShares := managed, supply;
        held := held[who := Tally(held, who) - shares];
      case PnlAppliedEvent(_, managed, _, nav) =>
        updatedAt := Some(times[entry.block]);
        totalAssets := managed;
        series := series + [ChainNavPoint(times[entry.block], nav, managed, totalShares)];
      case _ =>
    }
    var investorCount := CountInvestors(held);
    reading := VaultReading(series, investorCount, totalAssets, totalShares,
                            NavPerShare(VaultState(totalAssets, totalShares)), updatedAt);
  }

  method CountInvestors(held: map<Address, int>) returns (count: nat)
    ensures count == |Positive(held)|
  {
    count := 0;
    var todo := held.Keys;
    ghost var found: set<Address> := {};
    while todo != {}
      invariant todo <= held.Keys && count == |found|
      invariant forall a :: a in found <==> a in held && a !in todo && held[a] > 0
      decreases |todo|
    {
      var a :| a in todo;
      todo := todo - {a};
      if held[a] > 0 {
        count, found := count + 1, found + {a};
      }
    }
    assert Positive(held) == found;
  }

  // ---------------------------------------------------------------- any order of delivery

  /** Block by block, and within a block by the log index. */
  ghost predicate InChainOrder(logs: seq<LogEntry>) {
    forall i, j :: 0 <= i < j < |logs| ==>
      logs[i].block < logs[j].block || (logs[i].block == logs[j].block && logs[i].index < logs[j].index)
  }

  ghost predicate Ascending(logs: seq<LogEntry>) {
    forall i, j :: 0 <= i < j < |logs| ==> Precedes(logs[i], logs[j])
  }

  lemma PlacesAscend(logs: seq<LogEntry>)
    ensures InChainOrder(logs) <==> Ascending(logs)
  {
    if InChainOrder(logs) {
      forall i, j | 0 <= i < j < |logs| ensures Precedes(logs[i], logs[j]) {
      }
    } else {
      var i, j :| 0 <= i < j < |logs|
                  && !(logs[i].block < logs[j].block || (logs[i].block == logs[j].block && logs[i].index < logs[j].index));
      assert !Precedes(logs[i], logs[j]);
    }
  }

  ghost predicate WeaklyOrdered(logs: seq<LogEntry>) {
    forall i, j :: 0 <= i < j < |logs| ==> !Precedes(logs[j], logs[i])
  }

  lemma {:induction false} InsertKeeps(sorted: seq<LogEntry>, x: LogEntry)
    ensures multiset(InsertEntry(sorted, x)) == multiset(sorted) + multiset{x}
  {
    if sorted != [] && Precedes(x, sorted[|sorted| - 1]) {
      InsertKeeps(sorted[..|sorted| - 1], x);
      assert sorted == sorted[..|sorted| - 1] + [sorted[|sorted| - 1]];
    }
  }

  lemma {:induction false} InsertOrders(sorted: seq<LogEntry>, x: LogEntry)
    requires WeaklyOrdered(sorted)
    ensures WeaklyOrdered(InsertEntry(sorted, x))
    ensures forall y <- InsertEntry(sorted, x) :: y == x || y in sorted
  {
    if sorted != [] {
      var init, last := sorted[..|sorted| - 1], sorted[|sorted| - 1];
      if Precedes(x, last) {
        InsertOrders(init, x);
        var t := InsertEntry(init, x);
        forall k | 0 <= k < |t| ensures !Precedes(last, t[k]) {
          assert t[k] in t;
          if t[k] != x {
            var i :| 0 <= i < |init| && init[i] == t[k];
          }
        }
      } else {
        forall i | 0 <= i < |sorted| ensures !Precedes(x, sorted[i]) {
          assert i < |sorted| - 1 ==> !Precedes(last, sorted[i]);
        }
      }
    }
  }

  lemma {:induction false} SortedOrders(logs: seq<LogEntry>)
    ensures WeaklyOrdered(Sorted(logs)) && multiset(Sorted(logs)) == multiset(logs)
  {
    if logs != [] {
      SortedOrders(logs[..|logs| - 1]);
      InsertOrders(Sorted(logs[..|logs| - 1]), logs[|logs| - 1]);
      InsertKeeps(Sorted(logs[..|logs| - 1]), logs[|logs| - 1]);
      assert logs == logs[..|logs| - 1] + [logs[|logs| - 1]];
    }
  }

  lemma HeadsAgree(a: seq<LogEntry>, b: seq<LogEntry>)
    requires WeaklyOrdered(a) && Ascending(b) && multiset(a) == multiset(b) && b != []
    ensures a != [] && a[0] == b[0]
  {
    assert b[0] in multiset(a);
    var i :| 0 <= i < |a| && a[i] == b[0];
    assert a[0] in multiset(b);
    var j :| 0 <= j < |b| && b[j] == a[0];
  }

  /** There is only one way to put differently placed entries in order. */
  lemma {:induction false} OrderIsUnique(a: seq<LogEntry>, b: seq<LogEntry>)
    requires WeaklyOrdered(a) && Ascending(b) && multiset(a) == multiset(b)
    ensures a == b
    decreases |b|
  {
    if b == [] {
      assert |a| == |multiset(a)| == 0;
    } else {
      HeadsAgree(a, b);
      assert a == [a[0]] + a[1..] && b == [b[0]] + b[1..];
      assert multiset(a[1..]) == multiset(a) - multiset{a[0]} == multiset(b[1..]);
      OrderIsUnique(a[1..], b[1..]);
    }
  }

  ghost function NavPart(m: multiset<LogEntry>, e: LogEntry): nat {
    if IsNavEvent(e.event) then m[e] else 0
  }

  lemma {:induction false} NavEntriesCount(logs: seq<LogEntry>)
    ensures forall e :: multiset(NavEntries(logs))[e] == NavPart(multiset(logs), e)
  {
    if logs != [] {
      NavEntriesCount(logs[..|logs| - 1]);
      assert logs == logs[..|logs| - 1] + [logs[|logs| - 1]];
    }
  }

  lemma {:induction false} NavEntriesKeepOrder(logs: seq<LogEntry>)
    requires Ascending(logs)
    ensures Ascending(NavEntries(logs))
    ensures forall e <- NavEntries(logs) :: e in logs
  {
    if logs != [] {
      NavEntriesKeepOrder(logs[..|logs| - 1]);
      var nav := NavEntries(logs[..|logs| - 1]);
      forall k | 0 <= k < |nav| ensures Precedes(nav[k], logs[|logs| - 1]) {
        assert nav[k] in nav;
        var i :| 0 <= i < |logs| - 1 && logs[i] == nav[k];
      }
    }
  }

  lemma SortingUndoesDelivery(delivered: seq<LogEntry>, logs: seq<LogEntry>)
    requires InChainOrder(logs) && multiset(delivered) == multiset(logs)
    ensures Sorted(NavEntries(delivered)) == NavEntries(logs)
  {
    PlacesAscend(logs);
    NavEntriesCount(delivered);
    NavEntriesCount(logs);
    assert multiset(NavEntries(delivered)) == multiset(NavEntries(logs));
    SortedOrders(NavEntries(delivered));
    NavEntriesKeepOrder(logs);
    OrderIsUnique(Sorted(NavEntries(delivered)), NavEntries(logs));
  }

  // ---------------------------------------------------------------- against the vault

  /** The complete log of a run, as the chain placed it, with every block dated. */
  ghost predicate Recorded(log: seq<Event>, logs: seq<LogEntry>, times: map<nat, int>) {
    && |logs| == |log|
    && (forall i :: 0 <= i < |log| ==> logs[i].event == log[i] && logs[i].block in times)
    && InChainOrder(logs)
  }

  /** One point for each settlement of the run: the vault's totals right after it. */
  function Settlements(l: Ledger, actions: seq<Action>): seq<Ledger>
    decreases |actions|
  {
    if actions == [] then []
    else SettledAt(l, actions[0]) + Settlements(After(l, actions[0]), actions[1..])
  }

  ghost predicate SamePoints(points: seq<ChainNavPoint>, ledgers: seq<Ledger>) {
    && |points| == |ledgers|
    && forall i :: 0 <= i < |points| ==>
         && points[i].totalAssets == ledgers[i].managed
         && points[i].totalShares == ledgers[i].supply
         && points[i].navPerShare == NavPerShare(ledgers[i].Totals())
  }

  lemma {:induction false} FoldSkipsOtherEvents(st: FoldState, logs: seq<LogEntry>, times: map<nat, int>)
    ensures Fold(st, NavEntries(logs), times) == Fold(st, logs, times)
    decreases |logs|
  {
    if logs != [] {
      var init, last := logs[..|logs| - 1], logs[|logs| - 1];
      FoldSkipsOtherEvents(st, init, times);
      assert logs == init + [last];
      FoldAppend(st, init, [last], times);
      FoldAppend(st, NavEntries(init), if IsNavEvent(last.event) then [last] else [], times);
    }
  }

  lemma {:induction false} FoldAppend(st: FoldState, a: seq<LogEntry>, b: seq<LogEntry>, times: map<nat, int>)
    ensures Fold(st, a + b, times) == Fold(Fold(st, a, times), b, times)
    decreases |a|
  {
    if a == [] {
      assert a + b == b;
    } else {
      assert (a + b)[0] == a[0] && (a + b)[1..] == a[1..] + b;
      FoldAppend(FoldOne(st, a[0], times), a[1..], b, times);
    }
  }

  ghost predicate Follows(st: FoldState, l: Ledger) {
    st.assets == l.managed && st.shares == l.supply && st.held == l.holdings
  }

  /** `st'` has the points of `st` and then one for each of `ledgers`. */
  ghost predicate Appended(st: FoldState, st': FoldState, ledgers: seq<Ledger>) {
    && |st.series| <= |st'.series| && st'.series[..|st.series|] == st.series
    && SamePoints(st'.series[|st.series|..], ledgers)
  }

  lemma AppendedTwice(st: FoldState, mid: FoldState, end: FoldState, a: seq<Ledger>, b: seq<Ledger>)
    requires Appended(st, mid, a) && Appended(mid, end, b)
    ensures Appended(st, end, a + b)
  {
    assert end.series[|st.series|..] == mid.series[|st.series|..] + end.series[|mid.series|..];
  }

  lemma RecordedSplits(a: seq<Event>, b: seq<Event>, logs: seq<LogEntry>, times: map<nat, int>)
    requires Recorded(a + b, logs, times)
    ensures Recorded(a, logs[..|a|], times) && Recorded(b, logs[|a|..], times)
  {
    forall i | 0 <= i < |b| ensures logs[|a|..][i].event == b[i] && logs[|a|..][i].block in times {
      assert logs[|a| + i].event == (a + b)[|a| + i];
    }
    forall i | 0 <= i < |a| ensures logs[..|a|][i].event == a[i] && logs[..|a|][i].block in times {
      assert logs[i].event == (a + b)[i];
    }
  }

  function SettledAt(l: Ledger, action: Action): seq<Ledger> {
    if action.ApplyPnl? && Apply(l, action).Done? then [After(l, action)] else []
  }

  lemma FoldOneFollowsTheVault(st: FoldState, l: Ledger, action: Action, logs: seq<LogEntry>, times: map<nat, int>)
    requires Follows(st, l) && Recorded(Emitted(l, action), logs, times)
    ensures Follows(Fold(st, logs, times), After(l, action))
    ensures Appended(st, Fold(st, logs, times), SettledAt(l, action))
  {
    if logs != [] {
      assert logs[1..] == [];
      assert Fold(st, logs, times) == FoldOne(st, logs[0], times);
    }
  }

  lemma {:induction false} FoldFollowsTheVault(st: FoldState, l: Ledger, actions: seq<Action>, logs: seq<LogEntry>, times: map<nat, int>)
    requires Follows(st, l) && Recorded(Log(l, actions), logs, times)
    ensures Follows(Fold(st, logs, times), Run(l, actions))
    ensures Appended(st, Fold(st, logs, times), Settlements(l, actions))
    decreases |actions|
  {
    if actions != [] {
      var emitted, next := Emitted(l, actions[0]), After(l, actions[0]);
      var first, rest := logs[..|emitted|], logs[|emitted|..];
      RecordedSplits(emitted, Log(next, actions[1..]), logs, times);
      FoldOneFollowsTheVault(st, l, actions[0], first, times);
      var mid := Fold(st, first, times);
      FoldFollowsTheVault(mid, next, actions[1..], rest, times);
      assert logs == first + rest;
      FoldAppend(st, first, rest, times);
      AppendedTwice(st, mid, Fold(mid, rest, times), SettledAt(l, actions[0]), Settlements(next, actions[1..]));
    }
  }

  /** The number of investors is the number of holders of at least one share. */
  function Holders(l: Ledger): set<Address> {
    set a | a in l.holdings && l.Held(a) > 0
  }

  /** Whatever order the log of a run is delivered in, folding it gives back the vault: its assets,
      its supply, its price, the number of its holders, and at each settlement the totals then in
      force. */
  lemma ReadingIsTheVault(operator: Address, actions: seq<Action>, logs: seq<LogEntry>, delivered: seq<LogEntry>, times: map<nat, int>)
    requires Recorded(Log(NewVault(operator), actions), logs, times)
    requires multiset(delivered) == multiset(logs)
    ensures var r, l := Reading(delivered, times), Run(NewVault(operator), actions);
            && r.totalAssets == l.managed && r.totalShares == l.supply
            && r.navPerShare == NavPerShare(l.Totals())
            && r.investorCount == |Holders(l)|
            && SamePoints(r.series, Settlements(NewVault(operator), actions))
  {
    SortingUndoesDelivery(delivered, logs);
    FoldSkipsOtherEvents(EMPTY_FOLD, logs, times);
    FoldFollowsTheVault(EMPTY_FOLD, NewVault(operator), actions, logs, times);
    var st, l := Fold(EMPTY_FOLD, logs, times), Run(NewVault(operator), actions);
    assert Positive(st.held) == Holders(l);
    assert st.series[0..] == st.series;
  }

  /** The per-investor tally behind the count is each investor's holding. */
  lemma TallyIsTheHolding(operator: Address, actions: seq<Action>, logs: seq<LogEntry>, delivered: seq<LogEntry>, times: map<nat, int>, who: Address)
    requires Recorded(Log(NewVault(operator), actions), logs, times)
    requires multiset(delivered) == multiset(logs)
    ensures Tally(Fold(EMPTY_FOLD, Sorted(NavEntries(delivered)), times).held, who) == Run(NewVault(operator), actions).Held(who)
  {
    SortingUndoesDelivery(delivered, logs);
    FoldSkipsOtherEvents(EMPTY_FOLD, logs, times);
    FoldFollowsTheVault(EMPTY_FOLD, NewVault(operator), actions, logs, times);
  }

  function PnlEntries(logs: seq<LogEntry>): seq<LogEntry> {
    if logs == [] then []
    else
      var init, last := logs[..|logs| - 1], logs[|logs| - 1];
      PnlEntries(init) + if last.event.PnlAppliedEvent? then [last] else []
  }

  ghost predicate Dated(st: FoldState, logs: seq<LogEntry>, times: map<nat, int>)
    requires forall e <- logs :: e.block in times
  {
    var pnl, nav := PnlEntries(logs), NavEntries(logs);
    && |st.series| == |pnl|
    && (forall i :: 0 <= i < |pnl| ==> pnl[i].block in times && st.series[i].t == times[pnl[i].block])
    && (if nav == [] then st.updatedAt == None
        else nav[|nav| - 1].block in times && st.updatedAt == Some(times[nav[|nav| - 1].block]))
  }

  lemma {:induction false} FoldDates(logs: seq<LogEntry>, times: map<nat, int>)
    requires forall e <- logs :: e.block in times
    ensures Dated(Fold(EMPTY_FOLD, logs, times), logs, times)
  {
    if logs != [] {
      var init, last := logs[..|logs| - 1], logs[|logs| - 1];
      FoldDates(init, times);
      assert logs == init + [last];
      FoldAppend(EMPTY_FOLD, init, [last], times);
      assert last in logs;
      assert Fold(Fold(EMPTY_FOLD, init, times), [last], times) == FoldOne(Fold(EMPTY_FOLD, init, times), last, times);
    }
  }

  /** Each point carries the time of the block that mined its settlement, and the reading the time
      of the newest event. */
  lemma ReadingIsDated(delivered: seq<LogEntry>, logs: seq<LogEntry>, times: map<nat, int>)
    requires InChainOrder(logs) && multiset(delivered) == multiset(logs)
    requires forall e <- logs :: e.block in times
    ensures Dated(Fold(EMPTY_FOLD, Sorted(NavEntries(delivered)), times), logs, times)
  {
    SortingUndoesDelivery(delivered, logs);
    FoldSkipsOtherEvents(EMPTY_FOLD, logs, times);
    FoldDates(logs, times);
  }

  /** The entries whose block has a known time. */
  function Datable(logs: seq<LogEntry>, times: map<nat, int>): seq<LogEntry> {
    if logs == [] then []
    else
      var init, last := logs[..|logs| - 1], logs[|logs| - 1];
      Datable(init, times) + if last.block in times then [last] else []
  }

  lemma {:induction false} DatableAre(logs: seq<LogEntry>, times: map<nat, int>)
    ensures forall e :: e in Datable(logs, times) <==> e in logs && e.block in times
  {
    if logs != [] {
      var init := logs[..|logs| - 1];
      DatableAre(init, times);
      assert logs == init + [logs[|logs| - 1]];
    }
  }

  lemma {:induction false} DatableAscends(logs: seq<LogEntry>, times: map<nat, int>)
    requires Ascending(logs)
    ensures Ascending(Datable(logs, times))
  {
    if logs != [] {
      var init, last := logs[..|logs| - 1], logs[|logs| - 1];
      DatableAscends(init, times);
      DatableAre(init, times);
      var kept := Datable(init, times);
      forall k | 0 <= k < |kept| ensures Precedes(kept[k], last) {
        assert kept[k] in kept;
        var i :| 0 <= i < |init| && init[i] == kept[k];
        assert logs[i] == kept[k];
      }
    }
  }

  lemma {:induction false} FoldSkipsUndated(st: FoldState, logs: seq<LogEntry>, times: map<nat, int>)
    ensures Fold(st, Datable(logs, times), times) == Fold(st, logs, times)
    decreases |logs|
  {
    if logs != [] {
      var init, last := logs[..|logs| - 1], logs[|logs| - 1];
      FoldSkipsUndated(st, init, times);
      assert logs == init + [last];
      FoldAppend(st, init, [last], times);
      FoldAppend(st, Datable(init, times), if last.block in times then [last] else [], times);
      assert Fold(Fold(st, init, times), [last], times) == FoldOne(Fold(st, init, times), last, times);
    }
  }

  /** An entry in a block whose time is not known is left out altogether: the reading is that of the
      log without it, in whatever order the log came. */
  lemma UndatedIsLeftOut(delivered: seq<LogEntry>, logs: seq<LogEntry>, times: map<nat, int>)
    requires InChainOrder(logs) && multiset(delivered) == multiset(logs)
    ensures InChainOrder(Datable(logs, times)) && Reading(delivered, times) == Reading(Datable(logs, times), times)
  {
    var known := Datable(logs, times);
    PlacesAscend(logs);
    DatableAscends(logs, times);
    PlacesAscend(known);
    SortingUndoesDelivery(delivered, logs);
    SortingUndoesDelivery(known, known);
    FoldSkipsOtherEvents(EMPTY_FOLD, logs, times);
    FoldSkipsOtherEvents(EMPTY_FOLD, known, times);
    FoldSkipsUndated(EMPTY_FOLD, logs, times);
  }
}
