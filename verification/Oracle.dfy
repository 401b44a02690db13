/** The price walk, persisted: backend/src/oracle/index.ts over backend/src/oracle/walk.ts, and the
    history window of backend/src/scheduler/wiring.ts. */
module Oracle {
  import opened Collections

  const TICK_INTERVAL_MS := 60_000
  const DEFAULT_BACKFILL_TICKS := 7 * 24 * 60

  datatype Symbol = ETH | BTC | SOL

  datatype Quote = Quote(eth: int, btc: int, sol: int)

  /** The seeded generator. Its arithmetic is floating point and stays out of the model: all that
      matters here is that a state determines its quote and its successor. */
  datatype Generator<!S> = Generator(init: S, advance: S -> S, quote: S -> Quote)

  function StateAt<S>(g: Generator<S>, step: nat): S {
    if step == 0 then g.init else g.advance(StateAt(g, step - 1))
  }

  /** The walk as a pure function of its step: step 0 is the starting prices. */
  function QuoteAt<S>(g: Generator<S>, step: nat): Quote {
    g.quote(StateAt(g, step))
  }

  /** The first step moves the state on once, and a walk taken up again at any of its states goes on as it
      would have. */
  lemma {:induction false} WalkGoesOn<S>(g: Generator<S>, a: nat, b: nat)
    ensures StateAt(g, 1) == g.advance(g.init)
    ensures StateAt(g.(init := StateAt(g, a)), b) == StateAt(g, a + b)
    ensures QuoteAt(g, a + b) == g.quote(StateAt(g.(init := StateAt(g, a)), b))
    decreases b
  {
    assert StateAt(g, 0) == g.init;
    if b > 0 {
      WalkGoesOn(g, a, b - 1);
    }
  }

  /** The forward-only walk: `Advance` yields step 0 first, then one step per call. */
  class PriceWalk<S> {
    const g: Generator<S>
    var index: int
    var state: S

    ghost predicate Valid()
      reads this
    {
      index >= -1 && state == StateAt(g, if index == -1 then 0 else index)
    }

    constructor (g: Generator<S>)
      ensures Valid() && index == -1 && this.g == g
    {
      this.g := g;
      index, state := -1, g.init;
    }

    method Advance() returns (step: nat, quote: Quote)
      requires Valid()
      modifies this
      ensures Valid() && index == old(index) + 1
      ensures step == index && quote == QuoteAt(g, step)
    {
      var first := index == -1;
      index := index + 1;
      if !first {
        state := g.advance(state);
      }
      return index, g.quote(state);
    }
  }

  /** The rows of one insert: a price for each symbol, all at one time. They are written by a single
      statement, so a time has either all of its rows or none. */
  datatype TickRows = TickRows(t: int, quote: Quote)

  /** What the table holds once `n` steps are stored, the first one at `start`. */
  function Walked<S>(g: Generator<S>, start: int, n: nat): seq<TickRows> {
    if n == 0 then [] else Walked(g, start, n - 1) + [TickRows(start + (n - 1) * TICK_INTERVAL_MS, QuoteAt(g, n - 1))]
  }

  /** Row i of the table is step i of the walk, and the times are equally spaced. */
  lemma {:induction false} RowIsStep<S>(g: Generator<S>, start: int, n: nat, i: nat)
    requires i < n
    ensures |Walked(g, start, n)| == n
    ensures Walked(g, start, n)[i] == TickRows(start + i * TICK_INTERVAL_MS, QuoteAt(g, i))
  {
    WalkedLength(g, start, n);
    WalkedLength(g, start, n - 1);
    if i < n - 1 {
      RowIsStep(g, start, n - 1, i);
    }
  }

  lemma {:induction false} WalkedLength<S>(g: Generator<S>, start: int, n: nat)
    ensures |Walked(g, start, n)| == n
  {
    if n > 0 {
      WalkedLength(g, start, n - 1);
    }
  }

  /** Whatever was stored before, the same number of steps gives the same prices again. */
  lemma BackfillReproduces<S>(g: Generator<S>, start: int, again: int, n: nat, i: nat)
    requires i < n
    ensures |Walked(g, start, n)| == n == |Walked(g, again, n)|
    ensures Walked(g, start, n)[i].quote == Walked(g, again, n)[i].quote
  {
    RowIsStep(g, start, n, i);
    RowIsStep(g, again, n, i);
  }

  function AlignedNow(now: nat): int { now / TICK_INTERVAL_MS * TICK_INTERVAL_MS }

  datatype Snapshot = Snapshot(t: int, quote: Quote)

  datatype Op =
    | TickOp(now: nat, backfillFails: bool, insertFails: bool)
    | BackfillOp(ticks: int, now: nat, insertFails: bool)
    | ResetOp     // also what a restart leaves in memory
    | WipeOp      // the table is emptied from outside
    | SeriesOp(symbols: set<Symbol>, limit: nat, now: nat, insertFails: bool)

  class Oracle<S> {
    const g: Generator<S>
    var table: seq<TickRows>
    var walk: PriceWalk?<S>
    var backfillConfirmed: bool
    ghost var start: int

    /** The table is a prefix of the walk, and the cached generator, when there is one, is somewhere
        on it: behind the table, or ahead of it after an insert that failed. */
    ghost predicate Valid()
      reads this, walk
    {
      && table == Walked(g, start, |table|)
      && (walk != null ==> walk.g == g && walk.Valid())
    }

    constructor (g: Generator<S>)
      ensures Valid() && this.g == g && table == [] && walk == null && !backfillConfirmed
    {
      this.g := g;
      table, walk, backfillConfirmed, start := [], null, false, 0;
    }

    /** The cached generator, or a replay from step 0 when it has gone past `step`. */
    method WalkPricesAt(step: nat) returns (quote: Quote)
      requires Valid()
      modifies this`walk, walk
      ensures Valid() && quote == QuoteAt(g, step)
      ensures walk != null && (walk == old(walk) || fresh(walk)) && walk.index == step
    {
      if walk == null || walk.index >= step {
        walk := new PriceWalk(g);
      }
      var at;
      at, quote := walk.Advance();
      while at < step
        invariant walk != null && (walk == old(walk) || fresh(walk)) && walk.g == g && walk.Valid()
        invariant at == walk.index <= step && quote == QuoteAt(g, at)
      {
        at, quote := walk.Advance();
      }
    }

    method ResetWalkCache()
      requires Valid()
      modifies this`walk, this`backfillConfirmed
      ensures Valid() && walk == null && !backfillConfirmed
    {
      walk := null;
      backfillConfirmed := false;
    }

    /** `None` is the thrown error of a failed transaction. */
    method EnsureBackfilled(ticks: int, now: nat, insertFails: bool) returns (stored: Option<nat>)
      requires Valid()
      modifies this
      ensures Valid()
      ensures old(table) != [] || ticks <= 0 || insertFails ==> table == old(table) && start == old(start)
      ensures old(table) == [] && ticks > 0 && !insertFails ==>
                |table| == ticks && start == AlignedNow(now) - (ticks - 1) * TICK_INTERVAL_MS && walk == null
      ensures stored == None <==> old(table) == [] && ticks > 0 && insertFails
      ensures stored.Some? ==> stored.value == |table|
      ensures stored.Some? && stored.value > 0 ==> backfillConfirmed
      ensures walk == old(walk) || walk == null
    {
      if |table| > 0 {
        backfillConfirmed := true;
        return Some(|table|);
      }
      if ticks <= 0 {
        return Some(0);
      }
      var endT := AlignedNow(now);
      var startT := endT - (ticks - 1) * TICK_INTERVAL_MS;
      var rows := Generate(ticks, startT);
      if insertFails {
        return None;
      }
      table := rows;
      start := startT;
      walk := null;
      backfillConfirmed := true;
      return Some(ticks);
    }

    /** The rows of a backfill, off a generator of its own. */
    method Generate(ticks: nat, startT: int) returns (rows: seq<TickRows>)
      ensures rows == Walked(g, startT, ticks) && |rows| == ticks
    {
      var generator := new PriceWalk(g);
      rows := [];
      for i := 0 to ticks
        invariant generator.Valid() && generator.index == i - 1 && generator.g == g
        invariant rows == Walked(g, startT, i) && |rows| == i
      {
        var _, quote := generator.Advance();
        rows := rows + [TickRows(startT + i * TICK_INTERVAL_MS, quote)];
      }
    }

    function LatestTimestamp(): Option<int>
      reads this
    {
      if table == [] then None else Some(table[|table| - 1].t)
    }

    /** The next step of the walk, one interval after the last one stored. */
    method AppendStep(now: nat, insertFails: bool) returns (snapshot: Option<Snapshot>)
      requires Valid()
      modifies this`walk, this`table, this`start, walk
      ensures Valid() && (walk == old(walk) || fresh(walk))
      ensures start == if old(table) == [] && !insertFails then AlignedNow(now) else old(start)
      ensures insertFails ==> snapshot == None && table == old(table)
      ensures !insertFails ==>
                && |table| == |old(table)| + 1 && table[..|old(table)|] == old(table)
                && snapshot == Some(Snapshot(table[|old(table)|].t, table[|old(table)|].quote))
    {
      var step, last := |table|, LatestTimestamp();
      var t := if last == None then AlignedNow(now) else last.value + TICK_INTERVAL_MS;
      if step > 0 {
        RowIsStep(g, start, step, step - 1);
      }
      var quote := WalkPricesAt(step);
      if insertFails {
        return None;
      }
      if step == 0 {
        start := t;
      }
      table := table + [TickRows(t, quote)];
      return Some(Snapshot(t, quote));
    }

    /** One step further, persisted and returned; a failed insert throws and stores nothing. An empty
        table is backfilled first. */
    method Tick(now: nat, backfillFails: bool, insertFails: bool) returns (snapshot: Option<Snapshot>)
      requires Valid()
      modifies this, walk
      ensures Valid() && (walk == old(walk) || walk == null || fresh(walk))
      ensures snapshot == None <==> insertFails || (old(table) == [] && backfillFails)
      ensures |table| == (if old(table) != [] then |old(table)| else if backfillFails then 0 else 10_080)
                         + if snapshot.Some? then 1 else 0
      ensures old(table) != [] ==> start == old(start)
      ensures snapshot.Some? ==> snapshot.value == Snapshot(table[|table| - 1].t, table[|table| - 1].quote)
    {
      var backfilled := EnsureBackfilled(DEFAULT_BACKFILL_TICKS, now, backfillFails);
      if backfilled == None {
        return None;
      }
      snapshot := AppendStep(now, insertFails);
    }

    /** Any mix of ticks, failed inserts, backfills, reads, resets, restarts and wipes. */
    method Drive(ops: seq<Op>)
      requires Valid()
      modifies this, walk
      ensures Valid()
    {
      for i := 0 to |ops|
        invariant Valid() && (walk == old(walk) || walk == null || fresh(walk))
      {
        match ops[i]
        case TickOp(now, backfillFails, insertFails) => var _ := Tick(now, backfillFails, insertFails);
        case BackfillOp(ticks, now, fails) => var _ := EnsureBackfilled(ticks, now, fails);
        case ResetOp => ResetWalkCache();
        case WipeOp => table := [];
        case SeriesOp(symbols, limit, now, fails) => var _ := SeriesFor(symbols, limit, now, fails);
      }
    }

    /** A confirmed backfill is not looked up again, even if the table has been emptied since. */
    method EnsureHistory(now: nat, insertFails: bool) returns (ok: bool)
      requires Valid()
      modifies this
      ensures Valid() && (walk == old(walk) || walk == null)
      ensures ok <==> old(backfillConfirmed) || old(table) != [] || !insertFails
      ensures old(backfillConfirmed) || old(table) != [] || insertFails ==> table == old(table) && start == old(start)
      ensures !old(backfillConfirmed) && old(table) == [] && !insertFails ==> |table| == 10_080
      ensures ok ==> backfillConfirmed
    {
      if backfillConfirmed {
        return true;
      }
      var stored := EnsureBackfilled(DEFAULT_BACKFILL_TICKS, now, insertFails);
      return stored.Some?;
    }

    /** The last `limit` ticks, one bucket for each, oldest first; `None` is the error of a backfill that
        had to come first and failed. */
    method SeriesFor(symbols: set<Symbol>, limit: nat, now: nat, insertFails: bool) returns (series: Option<seq<seq<OraclePrice>>>)
      requires Valid()
      modifies this
      ensures Valid() && (walk == old(walk) || walk == null)
      ensures series == None <==> !old(backfillConfirmed) && old(table) == [] && insertFails
      ensures old(backfillConfirmed) || old(table) != [] || insertFails ==> table == old(table)
      ensures !old(backfillConfirmed) && old(table) == [] && !insertFails ==> |table| == 10_080
      ensures series.Some? ==> series.value == if symbols == {} then [] else Buckets(Newest(table, limit), symbols)
    {
      var ok := EnsureHistory(now, insertFails);
      if !ok {
        return None;
      }
      var stored := StoredSeries(symbols, limit);
      return Some(stored);
    }

    /** The two queries and the grouping. */
    method StoredSeries(symbols: set<Symbol>, limit: nat) returns (series: seq<seq<OraclePrice>>)
      requires Valid()
      ensures series == if symbols == {} then [] else Buckets(Newest(table, limit), symbols)
    {
      if limit <= 0 || symbols == {} || table == [] {
        return [];
      }
      var cutoff := table[|table| - (if limit < |table| then limit else |table|)].t;
      var byTick, order := GroupByTick(Query(table, symbols, cutoff));
      series := Listed(byTick, order);
      TableAscends(g, start, |table|);
      SeriesIsNewest(table, symbols, limit);
    }

    /** `order` is the order in which a `Map` lists the times it was given. */
    method GroupByTick(rows: seq<OraclePrice>) returns (byTick: map<int, seq<OraclePrice>>, order: seq<int>)
      ensures (byTick, order) == Grouped(rows)
    {
      byTick, order := map[], [];
      for i := 0 to |rows|
        invariant (byTick, order) == Grouped(rows[..i])
      {
        assert rows[..i + 1][..i] == rows[..i];
        if rows[i].t in byTick {
          byTick := byTick[rows[i].t := byTick[rows[i].t] + [rows[i]]];
        } else {
          byTick := byTick[rows[i].t := [rows[i]]];
          order := order + [rows[i].t];
        }
      }
      assert rows[..|rows|] == rows;
    }
  }

  // ---------------------------------------------------------------- reading a window back

  datatype OraclePrice = OraclePrice(symbol: Symbol, price: int, t: int)

  /** One tick's prices for the symbols asked for, in the order of their names. */
  function Bucket(tick: TickRows, symbols: set<Symbol>): seq<OraclePrice> {
    (if BTC in symbols then [OraclePrice(BTC, tick.quote.btc, tick.t)] else [])
    + (if ETH in symbols then [OraclePrice(ETH, tick.quote.eth, tick.t)] else [])
    + (if SOL in symbols then [OraclePrice(SOL, tick.quote.sol, tick.t)] else [])
  }

  function Buckets(ticks: seq<TickRows>, symbols: set<Symbol>): seq<seq<OraclePrice>> {
    seq(|ticks|, i requires 0 <= i < |ticks| => Bucket(ticks[i], symbols))
  }

  function Newest<T>(s: seq<T>, limit: nat): seq<T> {
    if limit < |s| then s[|s| - limit..] else s
  }

  /** The range scan: the rows from `cutoff` on, by time and then by symbol. */
  function Query(table: seq<TickRows>, symbols: set<Symbol>, cutoff: int): seq<OraclePrice> {
    if table == [] then []
    else
      var last := table[|table| - 1];
      Query(table[..|table| - 1], symbols, cutoff) + if last.t >= cutoff then Bucket(last, symbols) else []
  }

  ghost predicate Ascends(ticks: seq<TickRows>) {
    forall i, j :: 0 <= i < j < |ticks| ==> ticks[i].t < ticks[j].t
  }

  lemma TableAscends<S>(g: Generator<S>, start: int, n: nat)
    ensures Ascends(Walked(g, start, n))
  {
    forall i, j | 0 <= i < j < |Walked(g, start, n)| ensures Walked(g, start, n)[i].t < Walked(g, start, n)[j].t {
      WalkedLength(g, start, n);
      RowIsStep(g, start, n, i);
      RowIsStep(g, start, n, j);
    }
  }

  function Rows(ticks: seq<TickRows>, symbols: set<Symbol>): seq<OraclePrice> {
    if ticks == [] then [] else Rows(ticks[..|ticks| - 1], symbols) + Bucket(ticks[|ticks| - 1], symbols)
  }

  lemma {:induction false} QueryFrom(table: seq<TickRows>, symbols: set<Symbol>, from: nat)
    requires Ascends(table) && from < |table|
    ensures Query(table, symbols, table[from].t) == Rows(table[from..], symbols)
  {
    var n, early := |table| - 1, table[..|table| - 1];
    LastApart(table, from);
    RowsAppend(early[from..], table[n], symbols);
    if from < n {
      assert early[from].t == table[from].t < table[n].t;
      QueryFrom(early, symbols, from);
    } else {
      QueryBefore(early, symbols, table[n].t);
      assert Rows([], symbols) == [];
    }
  }

  lemma LastApart<T>(s: seq<T>, from: nat)
    requires from < |s|
    ensures s[from..] == s[..|s| - 1][from..] + [s[|s| - 1]]
  {
  }

  lemma RowsAppend(ticks: seq<TickRows>, tick: TickRows, symbols: set<Symbol>)
    ensures Rows(ticks + [tick], symbols) == Rows(ticks, symbols) + Bucket(tick, symbols)
  {
    assert (ticks + [tick])[..|ticks|] == ticks;
  }

  lemma {:induction false} QueryBefore(table: seq<TickRows>, symbols: set<Symbol>, cutoff: int)
    requires forall i :: 0 <= i < |table| ==> table[i].t < cutoff
    ensures Query(table, symbols, cutoff) == []
  {
    if table != [] {
      QueryBefore(table[..|table| - 1], symbols, cutoff);
    }
  }

  lemma QueryIsNewest(table: seq<TickRows>, symbols: set<Symbol>, limit: nat)
    requires Ascends(table) && table != [] && limit > 0
    ensures var from := |table| - (if limit < |table| then limit else |table|);
            Query(table, symbols, table[from].t) == Rows(Newest(table, limit), symbols)
  {
    var from := |table| - (if limit < |table| then limit else |table|);
    QueryFrom(table, symbols, from);
    assert table[from..] == Newest(table, limit);
  }

  function Grouped(rows: seq<OraclePrice>): (map<int, seq<OraclePrice>>, seq<int>) {
    if rows == [] then (map[], [])
    else
      var ((byTick, order), row) := (Grouped(rows[..|rows| - 1]), rows[|rows| - 1]);
      if row.t in byTick then (byTick[row.t := byTick[row.t] + [row]], order)
      else (byTick[row.t := [row]], order + [row.t])
  }

  lemma {:induction false} GroupedBucket(rows: seq<OraclePrice>, bucket: seq<OraclePrice>, t: int)
    requires forall r <- bucket :: r.t == t
    requires t !in Grouped(rows).0 && bucket != []
    ensures Grouped(rows + bucket) == (Grouped(rows).0[t := bucket], Grouped(rows).1 + [t])
  {
    var init, last := bucket[..|bucket| - 1], bucket[|bucket| - 1];
    assert (rows + bucket)[..|rows + bucket| - 1] == rows + init;
    assert last in bucket && bucket == init + [last];
    if init != [] {
      GroupedBucket(rows, init, t);
      assert Grouped(rows).0[t := init][t := init + [last]] == Grouped(rows).0[t := bucket];
    } else {
      assert rows + init == rows;
    }
  }

  /** Each tick's rows under its time, and the times in their order. */
  ghost predicate GroupedAs(ticks: seq<TickRows>, symbols: set<Symbol>, byTick: map<int, seq<OraclePrice>>, order: seq<int>) {
    && |order| == |ticks|
    && (forall i :: 0 <= i < |ticks| ==> order[i] == ticks[i].t && order[i] in byTick && byTick[order[i]] == Bucket(ticks[i], symbols))
    && (forall t <- byTick :: t in order)
  }

  lemma OneMoreGroup(ticks: seq<TickRows>, last: TickRows, symbols: set<Symbol>, byTick: map<int, seq<OraclePrice>>, order: seq<int>)
    requires GroupedAs(ticks, symbols, byTick, order) && forall tick <- ticks :: tick.t < last.t
    ensures last.t !in byTick
    ensures GroupedAs(ticks + [last], symbols, byTick[last.t := Bucket(last, symbols)], order + [last.t])
  {
    forall i | 0 <= i < |order| ensures order[i] < last.t {
      assert order[i] == ticks[i].t && ticks[i] in ticks;
    }
  }

  lemma GroupingOneMore(ticks: seq<TickRows>, last: TickRows, symbols: set<Symbol>)
    requires symbols != {} && forall tick <- ticks :: tick.t < last.t
    requires var (byTick, order) := Grouped(Rows(ticks, symbols)); GroupedAs(ticks, symbols, byTick, order)
    ensures var (byTick, order) := Grouped(Rows(ticks + [last], symbols)); GroupedAs(ticks + [last], symbols, byTick, order)
  {
    var (byTick, order) := Grouped(Rows(ticks, symbols));
    OneMoreGroup(ticks, last, symbols, byTick, order);
    BucketIsNotEmpty(last, symbols);
    GroupedBucket(Rows(ticks, symbols), Bucket(last, symbols), last.t);
    RowsAppend(ticks, last, symbols);
  }

  /** Bucketing the ordered rows by their time gives each tick's rows back. */
  lemma {:induction false} GroupingUndoesTheQuery(ticks: seq<TickRows>, symbols: set<Symbol>)
    requires Ascends(ticks) && symbols != {}
    ensures var (byTick, order) := Grouped(Rows(ticks, symbols)); GroupedAs(ticks, symbols, byTick, order)
  {
    if ticks != [] {
      var init, last := ticks[..|ticks| - 1], ticks[|ticks| - 1];
      GroupingUndoesTheQuery(init, symbols);
      GroupingOneMore(init, last, symbols);
      assert ticks == init + [last];
    }
  }

  function Listed(byTick: map<int, seq<OraclePrice>>, order: seq<int>): seq<seq<OraclePrice>> {
    seq(|order|, i requires 0 <= i < |order| => if order[i] in byTick then byTick[order[i]] else [])
  }

  lemma SeriesIsNewest(table: seq<TickRows>, symbols: set<Symbol>, limit: nat)
    requires Ascends(table) && table != [] && limit > 0 && symbols != {}
    ensures var cutoff := table[|table| - (if limit < |table| then limit else |table|)].t;
            var (byTick, order) := Grouped(Query(table, symbols, cutoff));
            Listed(byTick, order) == Buckets(Newest(table, limit), symbols)
  {
    QueryIsNewest(table, symbols, limit);
    GroupingUndoesTheQuery(Newest(table, limit), symbols);
  }

  lemma BucketIsNotEmpty(tick: TickRows, symbols: set<Symbol>)
    requires symbols != {}
    ensures Bucket(tick, symbols) != [] && forall r <- Bucket(tick, symbols) :: r.t == tick.t
  {
    var s :| s in symbols;
    assert s == ETH || s == BTC || s == SOL;
  }

  // ---------------------------------------------------------------- the window a strategy sees

  /** What a strategy is handed carries seconds. */
  function InSeconds(prices: seq<OraclePrice>): seq<OraclePrice> {
    seq(|prices|, i requires 0 <= i < |prices| => prices[i].(t := prices[i].t / 1000))
  }

  function Prior(series: seq<seq<OraclePrice>>, t: int): seq<seq<OraclePrice>> {
    if series == [] then []
    else
      var last := series[|series| - 1];
      Prior(series[..|series| - 1], t) + if (if last == [] then 0 else last[0].t) < t then [last] else []
  }

  /** `slice(-limit)`, which takes everything for a limit of 0. */
  function Sliced<T>(s: seq<T>, limit: nat): seq<T> { if limit == 0 then s else Newest(s, limit) }

  method History<S>(oracle: Oracle<S>, newest: int, symbols: set<Symbol>, limit: nat, now: nat, insertFails: bool)
    returns (history: Option<seq<seq<OraclePrice>>>)
    requires oracle.Valid()
    modifies oracle
    ensures oracle.Valid()
    ensures history == None <==> !old(oracle.backfillConfirmed) && old(oracle.table) == [] && insertFails
    ensures history.Some? ==> history.value == Window(oracle.table, newest, symbols, limit)
  {
    var series := oracle.SeriesFor(symbols, limit + 1, now, insertFails);
    if series == None {
      return None;
    }
    var prior := Sliced(Prior(series.value, newest), limit);
    history := Some(seq(|prior|, i requires 0 <= i < |prior| => InSeconds(prior[i])));
  }

  function Window(table: seq<TickRows>, newest: int, symbols: set<Symbol>, limit: nat): seq<seq<OraclePrice>> {
    var prior := Sliced(Prior(if symbols == {} then [] else Buckets(Newest(table, limit + 1), symbols), newest), limit);
    seq(|prior|, i requires 0 <= i < |prior| => InSeconds(prior[i]))
  }

  lemma {:induction false} PriorOfEarlier(series: seq<seq<OraclePrice>>, t: int)
    requires forall i :: 0 <= i < |series| ==> series[i] != [] && series[i][0].t < t
    ensures Prior(series, t) == series
  {
    if series != [] {
      PriorOfEarlier(series[..|series| - 1], t);
    }
  }

  lemma PriorKeepsEarlier(ticks: seq<TickRows>, symbols: set<Symbol>, t: int)
    requires symbols != {} && forall i :: 0 <= i < |ticks| ==> ticks[i].t < t
    ensures Prior(Buckets(ticks, symbols), t) == Buckets(ticks, symbols)
  {
    forall i | 0 <= i < |ticks| ensures Bucket(ticks[i], symbols) != [] && Bucket(ticks[i], symbols)[0].t < t {
      BucketIsNotEmpty(ticks[i], symbols);
      assert Bucket(ticks[i], symbols)[0] in Bucket(ticks[i], symbols);
    }
    PriorOfEarlier(Buckets(ticks, symbols), t);
  }

  lemma NewestApart<T>(s: seq<T>, limit: nat)
    requires s != []
    ensures Newest(s, limit + 1) == Newest(s[..|s| - 1], limit) + [s[|s| - 1]]
  {
  }

  lemma EarlierThanNewest(table: seq<TickRows>, limit: nat)
    requires Ascends(table) && table != []
    ensures forall tick <- Newest(table[..|table| - 1], limit) :: tick.t < table[|table| - 1].t
  {
  }

  lemma PriorDropsLast(before: seq<TickRows>, last: TickRows, symbols: set<Symbol>)
    requires symbols != {} && forall tick <- before :: tick.t < last.t
    ensures Prior(Buckets(before + [last], symbols), last.t) == Buckets(before, symbols)
  {
    var buckets := Buckets(before + [last], symbols);
    PriorKeepsEarlier(before, symbols, last.t);
    BucketIsNotEmpty(last, symbols);
    assert buckets[..|before|] == Buckets(before, symbols);
    assert buckets[|before|] == Bucket(last, symbols) && Bucket(last, symbols)[0] in Bucket(last, symbols);
    assert Buckets(before, symbols) + [] == Buckets(before, symbols);
  }

  /** With the newest snapshot at hand, a strategy's history is exactly the `limit` snapshots before
      it, oldest first, or all there are. */
  lemma HistoryIsTheLastBeforeNewest(table: seq<TickRows>, symbols: set<Symbol>, limit: nat)
    requires Ascends(table) && table != [] && symbols != {}
    ensures var newest, before := table[|table| - 1].t, Newest(table[..|table| - 1], limit);
            && |Window(table, newest, symbols, limit)| == |before|
            && forall i :: 0 <= i < |before| ==> Window(table, newest, symbols, limit)[i] == InSeconds(Bucket(before[i], symbols))
  {
    NewestApart(table, limit);
    EarlierThanNewest(table, limit);
    PriorDropsLast(Newest(table[..|table| - 1], limit), table[|table| - 1], symbols);
  }

  /** However far the newest snapshot is ahead of the table, no more than `limit` ticks are shown, the
      newest ones; for a limit of 0 the one that was read for comparison is not cut away. */
  lemma WindowWithinLimit(table: seq<TickRows>, newest: int, symbols: set<Symbol>, limit: nat)
    requires symbols != {} && forall i :: 0 <= i < |table| ==> table[i].t < newest
    ensures var shown, window := Newest(table, if limit == 0 then 1 else limit), Window(table, newest, symbols, limit);
            |window| == |shown| && forall i :: 0 <= i < |shown| ==> window[i] == InSeconds(Bucket(shown[i], symbols))
  {
    var ticks := Newest(table, limit + 1);
    PriorKeepsEarlier(ticks, symbols, newest);
    assert limit > 0 ==> Newest(ticks, limit) == Newest(table, limit);
  }

  /** A strategy none of whose assets the oracle quotes gets no history at all; any other gets the
      whole window. */
  lemma HistoryNeedsAQuotedSymbol(table: seq<TickRows>, symbols: set<Symbol>, limit: nat)
    requires Ascends(table) && |table| > 1 && limit > 0
    ensures |Window(table, table[|table| - 1].t, symbols, limit)| == |Newest(table[..|table| - 1], limit)| <==> symbols != {}
  {
    if symbols != {} {
      HistoryIsTheLastBeforeNewest(table, symbols, limit);
    }
  }

  // ---------------------------------------------------------------- what a strategy is shown

  function PriceOf(quote: Quote, symbol: Symbol): int {
    match symbol case ETH => quote.eth case BTC => quote.btc case SOL => quote.sol
  }

  function Name(symbol: Symbol): string {
    match symbol case ETH => "ETH" case BTC => "BTC" case SOL => "SOL"
  }

  /** A bucket has one price for each symbol asked for, its own, in the order of the names. */
  lemma BucketHolds(tick: TickRows, symbols: set<Symbol>)
    ensures var bucket := Bucket(tick, symbols);
            && (forall s :: OraclePrice(s, PriceOf(tick.quote, s), tick.t) in bucket <==> s in symbols)
            && (forall p <- bucket :: p == OraclePrice(p.symbol, PriceOf(tick.quote, p.symbol), tick.t))
            && (forall i, j :: 0 <= i < j < |bucket| ==> Name(bucket[i].symbol)[0] < Name(bucket[j].symbol)[0])
  {
  }

  /** Ticks lie on the whole minutes; a new table begins at the one that has just gone by. */
  lemma AlignedIsLastBoundary(now: nat)
    ensures AlignedNow(now) % 60_000 == 0 && AlignedNow(now) <= now < AlignedNow(now) + 60_000
  {
    assert AlignedNow(now) == now - now % TICK_INTERVAL_MS;
  }

  /** The prices of one step, for these symbols and no other, at its time in seconds. */
  predicate ShowsStep(entry: seq<OraclePrice>, quote: Quote, t: int, symbols: set<Symbol>) {
    && (forall s :: OraclePrice(s, PriceOf(quote, s), t / 1000) in entry <==> s in symbols)
    && (forall p <- entry :: p == OraclePrice(p.symbol, PriceOf(quote, p.symbol), t / 1000))
  }

  lemma BucketIsShown(tick: TickRows, symbols: set<Symbol>)
    ensures ShowsStep(InSeconds(Bucket(tick, symbols)), tick.quote, tick.t, symbols)
  {
    BucketHolds(tick, symbols);
    var bucket, shown := Bucket(tick, symbols), InSeconds(Bucket(tick, symbols));
    forall s | s in symbols ensures OraclePrice(s, PriceOf(tick.quote, s), tick.t / 1000) in shown {
      var k :| 0 <= k < |bucket| && bucket[k] == OraclePrice(s, PriceOf(tick.quote, s), tick.t);
      assert shown[k] == OraclePrice(s, PriceOf(tick.quote, s), tick.t / 1000);
    }
    forall k | 0 <= k < |shown|
      ensures shown[k].symbol in symbols && shown[k] == OraclePrice(shown[k].symbol, PriceOf(tick.quote, shown[k].symbol), tick.t / 1000)
    {
      assert bucket[k] in bucket;
    }
  }

  lemma ShownAt(table: seq<TickRows>, symbols: set<Symbol>, limit: nat, i: nat)
    requires Ascends(table) && table != [] && symbols != {} && i < |Newest(table[..|table| - 1], limit)|
    ensures var window, tick := Window(table, table[|table| - 1].t, symbols, limit), Newest(table[..|table| - 1], limit)[i];
            |window| == |Newest(table[..|table| - 1], limit)| && ShowsStep(window[i], tick.quote, tick.t, symbols)
  {
    HistoryIsTheLastBeforeNewest(table, symbols, limit);
    BucketIsShown(Newest(table[..|table| - 1], limit)[i], symbols);
  }

  lemma NewestIs(table: seq<TickRows>, limit: nat, i: nat)
    requires table != [] && i < (if limit < |table| - 1 then limit else |table| - 1)
    ensures var shown := if limit < |table| - 1 then limit else |table| - 1;
            |Newest(table[..|table| - 1], limit)| == shown && Newest(table[..|table| - 1], limit)[i] == table[|table| - 1 - shown + i]
  {
  }

  lemma ShownOf(table: seq<TickRows>, symbols: set<Symbol>, limit: nat, i: nat, quote: Quote, t: int)
    requires Ascends(table) && table != [] && symbols != {} && i < (if limit < |table| - 1 then limit else |table| - 1)
    requires var shown := if limit < |table| - 1 then limit else |table| - 1; table[|table| - 1 - shown + i] == TickRows(t, quote)
    ensures var shown, window := if limit < |table| - 1 then limit else |table| - 1, Window(table, table[|table| - 1].t, symbols, limit);
            |window| == shown && ShowsStep(window[i], quote, t, symbols)
  {
    NewestIs(table, limit, i);
    ShownAt(table, symbols, limit, i);
  }

  lemma StepsOfTable<S>(g: Generator<S>, start: int, table: seq<TickRows>, step: nat)
    requires table == Walked(g, start, |table|) && step < |table|
    ensures Ascends(table) && table[step] == TickRows(start + step * 60_000, QuoteAt(g, step))
  {
    TableAscends(g, start, |table|);
    RowIsStep(g, start, |table|, step);
  }

  /** What a strategy is shown of the past is the walk itself: in each place of its history the prices of
      one step, its own symbols' and no other's, consecutive and up to the step before the newest, each
      a minute after the one before. */
  lemma HistoryIsTheWalk<S>(g: Generator<S>, start: int, table: seq<TickRows>, symbols: set<Symbol>, limit: nat, i: nat)
    requires table == Walked(g, start, |table|) && table != [] && symbols != {}
    requires i < (if limit < |table| - 1 then limit else |table| - 1)
    ensures var shown, window := if limit < |table| - 1 then limit else |table| - 1, Window(table, table[|table| - 1].t, symbols, limit);
            var step := |table| - 1 - shown + i;
            |window| == shown && ShowsStep(window[i], QuoteAt(g, step), start + step * 60_000, symbols)
  {
    var step := |table| - 1 - (if limit < |table| - 1 then limit else |table| - 1) + i;
    StepsOfTable(g, start, table, step);
    ShownOf(table, symbols, limit, i, QuoteAt(g, step), start + step * 60_000);
  }
}
