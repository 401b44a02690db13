/** Value over time: one position's line (backend/src/routes/dto.ts, `positionValueSeries`) and the
    whole portfolio's (backend/src/routes/portfolio.ts, `valueSeries`). Both sweep cursors over
    sorted rows; both are held against the plain definition that looks at every row. */
module ValueSeries {
  import opened Collections
  import opened ShareMath

  const MAX_SERIES_POINTS := 500

  /** A recorded deposit or withdrawal of shares. */
  datatype Event = Event(t: int, deposit: bool, shares: nat)

  datatype Snapshot = Snapshot(t: int, totals: VaultState)

  datatype Point = Point(t: int, value: int)

  predicate EventsAscend(events: seq<Event>) { forall i, j :: 0 <= i < j < |events| ==> events[i].t <= events[j].t }

  predicate SnapshotsAscend(snaps: seq<Snapshot>) { forall i, j :: 0 <= i < j < |snaps| ==> snaps[i].t <= snaps[j].t }

  predicate PointsAscend(line: seq<Point>) { forall i, j :: 0 <= i < j < |line| ==> line[i].t <= line[j].t }

  predicate AllAscend(lines: seq<seq<Point>>) { forall k :: 0 <= k < |lines| ==> PointsAscend(lines[k]) }

  // ---------------------------------------------------------------- one position

  function Signed(e: Event): int { if e.deposit then e.shares else 0 - e.shares }

  /** Shares held at `t`: every event at or before it, whatever its place in the list. */
  function SharesAt(events: seq<Event>, t: int): int {
    if events == [] then 0
    else SharesAt(events[..|events| - 1], t) + (if events[|events| - 1].t <= t then Signed(events[|events| - 1]) else 0)
  }

  function Since(snaps: seq<Snapshot>, start: int): (r: seq<Snapshot>)
    requires SnapshotsAscend(snaps)
    ensures SnapshotsAscend(r) && forall s :: s in r <==> s in snaps && s.t >= start
  {
    if snaps == [] then []
    else if snaps[0].t >= start then snaps
    else Since(snaps[1..], start)
  }

  function Start(events: seq<Event>, from: Option<int>): int
    requires events != []
  {
    if from.Some? && from.value > events[0].t then from.value else events[0].t
  }

  /** Each snapshot from the start on, at the claim of the shares held by then. */
  function PositionSeries(events: seq<Event>, snaps: seq<Snapshot>, from: Option<int>): seq<Point>
    requires SnapshotsAscend(snaps)
  {
    if events == [] then []
    else
      var shown := Since(snaps, Start(events, from));
      seq(|shown|, i requires 0 <= i < |shown| => Priced(events, shown[i]))
  }

  function Priced(events: seq<Event>, s: Snapshot): Point { Point(s.t, BalanceOf(SharesAt(events, s.t), s.totals)) }

  lemma {:induction false} SharesOfPrefix(events: seq<Event>, cursor: nat, t: int)
    requires EventsAscend(events) && cursor <= |events|
    requires forall i :: 0 <= i < cursor ==> events[i].t <= t
    requires cursor < |events| ==> events[cursor].t > t
    ensures SharesAt(events, t) == SharesAt(events[..cursor], t)
    decreases |events|
  {
    if cursor < |events| {
      var front := events[..|events| - 1];
      assert events[|events| - 1].t > t;
      assert front[..cursor] == events[..cursor];
      SharesOfPrefix(front, cursor, t);
    } else {
      assert events[..cursor] == events;
    }
  }

  /** Events that all lie at or before both times count the same at either. */
  lemma {:induction false} SharesSettled(events: seq<Event>, t: int, t': int)
    requires forall i :: 0 <= i < |events| ==> events[i].t <= t && events[i].t <= t'
    ensures SharesAt(events, t) == SharesAt(events, t')
    decreases |events|
  {
    if events != [] {
      SharesSettled(events[..|events| - 1], t, t');
    }
  }

  /** A cursor that has counted only events at or before `t`, maybe not all of them. */
  ghost predicate Counted(events: seq<Event>, t: int, cursor: nat, shares: int) {
    && cursor <= |events|
    && (forall i :: 0 <= i < cursor ==> events[i].t <= t)
    && shares == SharesAt(events[..cursor], t)
  }

  lemma CountedLater(events: seq<Event>, t: int, t': int, cursor: nat, shares: int)
    requires Counted(events, t, cursor, shares) && t <= t'
    ensures Counted(events, t', cursor, shares)
  {
    SharesSettled(events[..cursor], t, t');
  }

  lemma CountedOne(events: seq<Event>, t: int, cursor: nat, shares: int)
    requires Counted(events, t, cursor, shares) && cursor < |events| && events[cursor].t <= t
    ensures Counted(events, t, cursor + 1, shares + Signed(events[cursor]))
  {
    assert events[..cursor + 1][..cursor] == events[..cursor];
  }

  /** The inner loop: counts the events up to `t`. */
  method CountUpTo(events: seq<Event>, t: int, cursor0: nat, shares0: int) returns (cursor: nat, shares: int)
    requires EventsAscend(events) && Counted(events, t, cursor0, shares0)
    ensures Counted(events, t, cursor, shares) && shares == SharesAt(events, t)
  {
    cursor, shares := cursor0, shares0;
    while cursor < |events|
      invariant Counted(events, t, cursor, shares)
    {
      var event := events[cursor];
      if event.t > t {
        break;
      }
      CountedOne(events, t, cursor, shares);
      shares := shares + (if event.deposit then event.shares else 0 - event.shares);
      cursor := cursor + 1;
    }
    SharesOfPrefix(events, cursor, t);
  }

  method PositionValueSeries(events: seq<Event>, snaps: seq<Snapshot>, from: Option<int>) returns (points: seq<Point>)
    requires EventsAscend(events) && SnapshotsAscend(snaps)
    ensures points == PositionSeries(events, snaps, from)
  {
    if events == [] {
      return [];
    }
    var shown := Since(snaps, Start(events, from));
    points := [];
    var cursor := 0;
    var shares := 0;
    for n := 0 to |shown|
      invariant n < |shown| ==> Counted(events, shown[n].t, cursor, shares)
      invariant |points| == n && forall i :: 0 <= i < n ==> points[i] == Priced(events, shown[i])
    {
      cursor, shares := CountUpTo(events, shown[n].t, cursor, shares);
      points := points + [Point(shown[n].t, BalanceOf(shares, shown[n].totals))];
      if n + 1 < |shown| {
        CountedLater(events, shown[n].t, shown[n + 1].t, cursor, shares);
      }
    }
  }

  /** A line starts no earlier than the first event, and nothing is left out from there on. */
  lemma PositionSeriesCovers(events: seq<Event>, snaps: seq<Snapshot>, from: Option<int>)
    requires events != [] && EventsAscend(events) && SnapshotsAscend(snaps)
    ensures PointsAscend(PositionSeries(events, snaps, from))
    ensures forall s :: s in snaps && s.t >= events[0].t && (from.Some? ==> s.t >= from.value) ==>
              Priced(events, s) in PositionSeries(events, snaps, from)
    ensures forall p :: p in PositionSeries(events, snaps, from) ==>
              p.t >= events[0].t && (from.Some? ==> p.t >= from.value) && exists s :: s in snaps && s.t == p.t
  {
    var line, shown := PositionSeries(events, snaps, from), Since(snaps, Start(events, from));
    forall s | s in snaps && s.t >= events[0].t && (from.Some? ==> s.t >= from.value)
      ensures Priced(events, s) in line
    {
      assert s in shown;
      var i :| 0 <= i < |shown| && shown[i] == s;
      assert line[i] == Priced(events, s);
    }
    forall p | p in line ensures p.t >= Start(events, from) && exists s :: s in snaps && s.t == p.t {
      var i :| 0 <= i < |line| && line[i] == p;
      assert shown[i] in shown;
    }
  }

  // ---------------------------------------------------------------- the portfolio, plainly

  /** The last value at or before `t`; nothing before the line begins. */
  function CarriedAt(line: seq<Point>, t: int): int {
    if line == [] then 0
    else if line[|line| - 1].t <= t then line[|line| - 1].value
    else CarriedAt(line[..|line| - 1], t)
  }

  function TotalAt(lines: seq<seq<Point>>, t: int): int {
    if lines == [] then 0 else TotalAt(lines[..|lines| - 1], t) + CarriedAt(lines[|lines| - 1], t)
  }

  function TimesOf(lines: seq<seq<Point>>): seq<int> {
    if lines == [] then []
    else TimesOf(lines[..|lines| - 1]) + seq(|lines[|lines| - 1]|, i requires 0 <= i < |lines[|lines| - 1]| => lines[|lines| - 1][i].t)
  }

  predicate StrictlyAscends(ts: seq<int>) { forall i, j :: 0 <= i < j < |ts| ==> ts[i] < ts[j] }

  lemma ConsAscends(x: int, rest: seq<int>)
    requires StrictlyAscends(rest) && forall y :: y in rest ==> x < y
    ensures StrictlyAscends([x] + rest)
  {
    assert forall i :: 0 <= i < |rest| ==> rest[i] in rest;
  }

  function Inserted(ts: seq<int>, t: int): (r: seq<int>)
    requires StrictlyAscends(ts)
    ensures StrictlyAscends(r) && forall x :: x in r <==> x in ts || x == t
  {
    if ts == [] then [t]
    else if t < ts[0] then
      ConsAscends(t, ts);
      [t] + ts
    else if t == ts[0] then ts
    else
      var rest := Inserted(ts[1..], t);
      assert forall x :: x in rest ==> x > ts[0];
      ConsAscends(ts[0], rest);
      [ts[0]] + rest
  }

  /** `[...new Set(times)].sort((a, b) => a - b)` */
  function SortedUnion(times: seq<int>): (r: seq<int>)
    ensures StrictlyAscends(r) && forall x :: x in r <==> x in times
  {
    if times == [] then [] else Inserted(SortedUnion(times[..|times| - 1]), times[|times| - 1])
  }

  function Summed(lines: seq<seq<Point>>): seq<Point> {
    var ts := SortedUnion(TimesOf(lines));
    seq(|ts|, i requires 0 <= i < |ts| => Point(ts[i], TotalAt(lines, ts[i])))
  }

  /** `slice(-MAX_SERIES_POINTS)` */
  function Recent(points: seq<Point>): seq<Point> {
    if |points| > MAX_SERIES_POINTS then points[|points| - MAX_SERIES_POINTS..] else points
  }

  // ---------------------------------------------------------------- the portfolio, swept

  /** A cursor that has taken in only points at or before `t`, maybe not all of them. */
  ghost predicate Behind(line: seq<Point>, t: int, cursor: nat, value: int) {
    && cursor <= |line|
    && (forall i :: 0 <= i < cursor ==> line[i].t <= t)
    && value == if cursor == 0 then 0 else line[cursor - 1].value
  }

  /** The same with all of them taken in. */
  ghost predicate Swept(line: seq<Point>, t: int, cursor: nat, value: int) {
    Behind(line, t, cursor, value) && (cursor < |line| ==> line[cursor].t > t)
  }

  lemma {:induction false} SweptIsCarried(line: seq<Point>, t: int, cursor: nat, value: int)
    requires PointsAscend(line) && Swept(line, t, cursor, value)
    ensures CarriedAt(line, t) == value
    decreases |line|
  {
    if cursor < |line| {
      var front := line[..|line| - 1];
      assert line[|line| - 1].t > t;
      SweptIsCarried(front, t, cursor, value);
    }
  }

  /** The innermost loop: takes in the points of one line up to `t`. */
  method Advance(line: seq<Point>, t: int, cursor0: nat, value0: int) returns (cursor: nat, value: int)
    requires Behind(line, t, cursor0, value0)
    ensures Swept(line, t, cursor, value)
  {
    cursor, value := cursor0, value0;
    while cursor < |line|
      invariant Behind(line, t, cursor, value)
    {
      var point := line[cursor];
      if point.t > t {
        break;
      }
      value := point.value;
      cursor := cursor + 1;
    }
  }

  function Total(values: seq<int>): int {
    if values == [] then 0 else Total(values[..|values| - 1]) + values[|values| - 1]
  }

  lemma {:induction false} TotalOfCarried(lines: seq<seq<Point>>, values: seq<int>, t: int)
    requires |values| == |lines| && forall i :: 0 <= i < |lines| ==> values[i] == CarriedAt(lines[i], t)
    ensures Total(values) == TotalAt(lines, t)
  {
    if lines != [] {
      TotalOfCarried(lines[..|lines| - 1], values[..|values| - 1], t);
    }
  }

  /** One column of the sweep: every line's cursor is moved to `t`. */
  method AdvanceAll(lines: seq<seq<Point>>, t: int, cursors: array<nat>, carried: array<int>)
    requires cursors.Length == carried.Length == |lines|
    requires forall k :: 0 <= k < |lines| ==> PointsAscend(lines[k]) && Behind(lines[k], t, cursors[k], carried[k])
    modifies cursors, carried
    ensures forall k :: 0 <= k < |lines| ==> Swept(lines[k], t, cursors[k], carried[k])
  {
    for index := 0 to |lines|
      invariant forall k :: 0 <= k < index ==> Swept(lines[k], t, cursors[k], carried[k])
      invariant forall k :: index <= k < |lines| ==> Behind(lines[k], t, cursors[k], carried[k])
    {
      var cursor, value := Advance(lines[index], t, cursors[index], carried[index]);
      cursors[index] := cursor;
      carried[index] := value;
    }
  }

  method Sweep(lines: seq<seq<Point>>) returns (points: seq<Point>)
    requires AllAscend(lines)
    ensures points == Summed(lines)
  {
    var timestamps := SortedUnion(TimesOf(lines));
    var cursors := new nat[|lines|](_ => 0);
    var carried := new int[|lines|](_ => 0);
    points := [];
    for n := 0 to |timestamps|
      invariant forall k :: 0 <= k < |lines| ==>
                  forall t :: n < |timestamps| && t >= timestamps[n] ==> Behind(lines[k], t, cursors[k], carried[k])
      invariant points == Summed(lines)[..n]
    {
      var t := timestamps[n];
      AdvanceAll(lines, t, cursors, carried);
      forall k | 0 <= k < |lines| ensures carried[k] == CarriedAt(lines[k], t) {
        SweptIsCarried(lines[k], t, cursors[k], carried[k]);
      }
      TotalOfCarried(lines, carried[..], t);
      points := points + [Point(t, Total(carried[..]))];
    }
  }

  // ---------------------------------------------------------------- the whole portfolio

  datatype Holding = Holding(events: seq<Event>, snapshots: seq<Snapshot>)

  predicate Sorted(h: Holding) { EventsAscend(h.events) && SnapshotsAscend(h.snapshots) }

  function LineOf(h: Holding): (line: seq<Point>)
    requires Sorted(h)
    ensures PointsAscend(line)
  {
    PositionSeries(h.events, h.snapshots, None)
  }

  function Lines(held: seq<Holding>): seq<seq<Point>>
    requires forall k :: 0 <= k < |held| ==> Sorted(held[k])
  {
    seq(|held|, i requires 0 <= i < |held| && Sorted(held[i]) => LineOf(held[i]))
  }

  /** Two lists of lines with the same points and the same totals at all times. */
  ghost predicate SameSum(a: seq<seq<Point>>, b: seq<seq<Point>>) {
    TimesOf(a) == TimesOf(b) && forall t :: TotalAt(a, t) == TotalAt(b, t)
  }

  /** A line is taken in only if it has points. */
  function Added(lines: seq<seq<Point>>, line: seq<Point>): seq<seq<Point>> { if |line| > 0 then lines + [line] else lines }

  lemma TotalOfMore(lines: seq<seq<Point>>, line: seq<Point>, t: int)
    ensures TotalAt(lines + [line], t) == TotalAt(lines, t) + CarriedAt(line, t)
  {
    assert (lines + [line])[..|lines|] == lines;
  }

  lemma TimesOfMore(lines: seq<seq<Point>>, line: seq<Point>)
    ensures TimesOf(lines + [line]) == TimesOf(lines) + seq(|line|, i requires 0 <= i < |line| => line[i].t)
  {
    assert (lines + [line])[..|lines|] == lines;
  }

  lemma SameSumGrows(a: seq<seq<Point>>, b: seq<seq<Point>>, line: seq<Point>)
    requires SameSum(a, b)
    ensures SameSum(Added(a, line), b + [line])
  {
    TimesOfMore(a, line);
    TimesOfMore(b, line);
    if line == [] {
      assert TimesOf(b + [line]) == TimesOf(b) + [];
    }
    forall t ensures TotalAt(Added(a, line), t) == TotalAt(b + [line], t) {
      TotalOfMore(a, line, t);
      TotalOfMore(b, line, t);
    }
  }

  lemma SameSumIsSameSeries(a: seq<seq<Point>>, b: seq<seq<Point>>)
    requires SameSum(a, b)
    ensures Summed(a) == Summed(b)
  {
  }

  lemma LinesStep(held: seq<Holding>, n: nat)
    requires forall k :: 0 <= k < |held| ==> Sorted(held[k])
    requires n < |held|
    ensures Sorted(held[n]) && Lines(held)[..n + 1] == Lines(held)[..n] + [LineOf(held[n])]
    ensures Lines(held)[..|held|] == Lines(held)
  {
  }

  method LinesWithPoints(held: seq<Holding>) returns (lines: seq<seq<Point>>)
    requires forall k :: 0 <= k < |held| ==> Sorted(held[k])
    ensures AllAscend(lines) && SameSum(lines, Lines(held))
  {
    lines := [];
    for n := 0 to |held|
      invariant AllAscend(lines) && SameSum(lines, Lines(held)[..n])
    {
      LinesStep(held, n);
      var line := PositionValueSeries(held[n].events, held[n].snapshots, None);
      SameSumGrows(lines, Lines(held)[..n], line);
      if |line| > 0 {
        lines := lines + [line];
      }
    }
    WholePrefix(Lines(held));
  }

  lemma WholePrefix(lines: seq<seq<Point>>)
    ensures lines[..|lines|] == lines
  {
  }

  /** A holding without points changes neither the times nor the totals, so leaving it out is safe;
      what comes back is the end of the plain sum over all holdings. */
  method PortfolioValueSeries(held: seq<Holding>) returns (points: seq<Point>)
    requires forall k :: 0 <= k < |held| ==> Sorted(held[k])
    ensures points == Recent(Summed(Lines(held)))
  {
    var lines := LinesWithPoints(held);
    SameSumIsSameSeries(lines, Lines(held));
    if |lines| == 0 {
      return [];
    }
    points := Sweep(lines);
    points := Recent(points);
  }

  /** What the lines end on, added up. */
  function Ends(lines: seq<seq<Point>>): int {
    if lines == [] then 0
    else
      var last := lines[|lines| - 1];
      Ends(lines[..|lines| - 1]) + (if last == [] then 0 else last[|last| - 1].value)
  }

  lemma {:induction false} TotalAtTheEnd(lines: seq<seq<Point>>, t: int)
    requires forall k :: 0 <= k < |lines| ==> lines[k] != [] ==> lines[k][|lines[k]| - 1].t <= t
    ensures TotalAt(lines, t) == Ends(lines)
  {
    if lines != [] {
      TotalAtTheEnd(lines[..|lines| - 1], t);
    }
  }

  lemma {:induction false} TimesInclude(lines: seq<seq<Point>>, k: nat, i: nat)
    requires k < |lines| && i < |lines[k]|
    ensures lines[k][i].t in TimesOf(lines)
    decreases |lines|
  {
    var front, last := lines[..|lines| - 1], lines[|lines| - 1];
    var times := seq(|last|, n requires 0 <= n < |last| => last[n].t);
    assert TimesOf(lines) == TimesOf(front) + times;
    if k < |lines| - 1 {
      TimesInclude(front, k, i);
    } else {
      assert times[i] == lines[k][i].t;
    }
  }

  lemma SummedEnds(lines: seq<seq<Point>>)
    requires Summed(lines) != []
    ensures Summed(lines)[|Summed(lines)| - 1].value == Ends(lines)
  {
    var ts := SortedUnion(TimesOf(lines));
    var t := ts[|ts| - 1];
    forall k | 0 <= k < |lines| && lines[k] != [] ensures lines[k][|lines[k]| - 1].t <= t {
      TimesInclude(lines, k, |lines[k]| - 1);
      assert lines[k][|lines[k]| - 1].t in ts;
    }
    TotalAtTheEnd(lines, t);
  }

  /** The series ends on what every line ends on: a strategy that has had no snapshot lately is
      carried at its last value, not dropped; and no cut takes that point away. */
  lemma LastPointIsCurrent(lines: seq<seq<Point>>)
    requires Summed(lines) != []
    ensures var shown := Recent(Summed(lines));
            && |shown| == (if |Summed(lines)| < 500 then |Summed(lines)| else 500) && 0 < |shown|
            && shown[|shown| - 1].value == Ends(lines)
  {
    SummedEnds(lines);
    RecentKeepsLast(Summed(lines));
  }

  lemma RecentKeepsLast(points: seq<Point>)
    requires points != []
    ensures 0 < |Recent(points)| == (if |points| < 500 then |points| else 500)
    ensures Recent(points)[|Recent(points)| - 1] == points[|points| - 1]
  {
  }
}
