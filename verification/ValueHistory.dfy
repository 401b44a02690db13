/** A position's line against the vault it is priced in: backend/src/routes/dto.ts, `positionValueSeries`,
    and backend/src/routes/portfolio.ts, `valueSeries`. */
module ValueHistory {
  import opened Collections
  import opened ShareMath
  import opened ValueSeries
  import V = Vault

  // ---------------------------------------------------------------- the shares held by then

  /** What is recorded of an event for one investor. */
  function Booked(e: V.Event, t: int, who: Address): seq<Event> {
    match e
    case DepositedEvent(investor, _, shares, _, _) => if investor == who then [Event(t, true, shares)] else []
    case WithdrawnEvent(investor, shares, _, _, _) => if investor == who then [Event(t, false, shares)] else []
    case _ => []
  }

  function BookedAll(events: seq<V.Event>, t: int, who: Address): seq<Event> {
    if events == [] then [] else Booked(events[0], t, who) + BookedAll(events[1..], t, who)
  }

  /** An investor's record of a run of the vault's calls, each at its time. */
  function Record(l: V.Ledger, actions: seq<V.Action>, at: seq<int>, who: Address): seq<Event>
    requires |at| == |actions|
    decreases |actions|
  {
    if actions == [] then []
    else BookedAll(V.Emitted(l, actions[0]), at[0], who) + Record(V.After(l, actions[0]), actions[1..], at[1..], who)
  }

  lemma {:induction false} SharesApart(a: seq<Event>, b: seq<Event>, t: int)
    ensures SharesAt(a + b, t) == SharesAt(a, t) + SharesAt(b, t)
    decreases |b|
  {
    if b == [] {
      assert a + b == a;
    } else {
      assert (a + b)[..|a + b| - 1] == a + b[..|b| - 1];
      SharesApart(a, b[..|b| - 1], t);
    }
  }

  lemma CallMovesShares(l: V.Ledger, action: V.Action, t0: int, t: int, who: Address)
    ensures SharesAt(BookedAll(V.Emitted(l, action), t0, who), t)
         == if t0 <= t then V.After(l, action).Held(who) - l.Held(who) else 0
  {
    var emitted := V.Emitted(l, action);
    assert |emitted| <= 1;
    if emitted != [] {
      assert emitted[1..] == [];
      assert BookedAll(emitted, t0, who) == Booked(emitted[0], t0, who);
      OneBooked(emitted[0], t0, who, t);
    }
  }

  lemma OneBooked(e: V.Event, t0: int, who: Address, t: int)
    ensures SharesAt(Booked(e, t0, who), t)
         == if t0 > t then 0
            else if e.DepositedEvent? && e.investor == who then e.shares
            else if e.WithdrawnEvent? && e.investor == who then 0 - e.shares
            else 0
  {
  }

  /** The cursor's shares are the vault's: at a moment between two calls the record adds up to what the
      investor's holding has changed by. */
  lemma {:induction false} SharesAreTheHolding(l: V.Ledger, actions: seq<V.Action>, at: seq<int>, who: Address, k: nat, t: int)
    requires |at| == |actions| && k <= |actions|
    requires forall i :: 0 <= i < |at| ==> (at[i] <= t <==> i < k)
    ensures SharesAt(Record(l, actions, at, who), t) == V.Run(l, actions[..k]).Held(who) - l.Held(who)
    decreases |actions|
  {
    if actions != [] {
      var next := V.After(l, actions[0]);
      CallMovesShares(l, actions[0], at[0], t, who);
      SharesApart(BookedAll(V.Emitted(l, actions[0]), at[0], who), Record(next, actions[1..], at[1..], who), t);
      if k > 0 {
        SharesAreTheHolding(next, actions[1..], at[1..], who, k - 1, t);
        V.RunOneMore(l, actions, k);
      } else {
        SharesAreTheHolding(next, actions[1..], at[1..], who, 0, t);
        assert actions[1..][..0] == [] && actions[..0] == [];
      }
    }
  }

  /** A point of the line is what the investor could have claimed in the vault at that snapshot, for a
      record of every call since the vault was new. */
  lemma PointIsTheClaim(operator: Address, actions: seq<V.Action>, at: seq<int>, who: Address, k: nat, s: Snapshot)
    requires |at| == |actions| && k <= |actions|
    requires forall i :: 0 <= i < |at| ==> (at[i] <= s.t <==> i < k)
    requires s.totals == V.Run(V.NewVault(operator), actions[..k]).Totals()
    ensures Priced(Record(V.NewVault(operator), actions, at, who), s) == Point(s.t, V.Run(V.NewVault(operator), actions[..k]).Claim(who))
  {
    SharesAreTheHolding(V.NewVault(operator), actions, at, who, k, s.t);
  }

  // ---------------------------------------------------------------- the sum of the lines

  /** The value a line is carried at is its latest at or before that moment, and 0 before it begins. */
  lemma {:induction false} CarriedIsLatest(line: seq<Point>, t: int)
    requires PointsAscend(line)
    ensures (forall i :: 0 <= i < |line| ==> line[i].t > t) ==> CarriedAt(line, t) == 0
    ensures forall i :: 0 <= i < |line| && line[i].t <= t && (i + 1 < |line| ==> line[i + 1].t > t) ==> CarriedAt(line, t) == line[i].value
    decreases |line|
  {
    if line != [] && line[|line| - 1].t > t {
      var front := line[..|line| - 1];
      CarriedIsLatest(front, t);
      forall i | 0 <= i < |line| && line[i].t <= t && (i + 1 < |line| ==> line[i + 1].t > t)
        ensures CarriedAt(line, t) == line[i].value
      {
        assert front[i] == line[i] && (i + 1 < |front| ==> front[i + 1] == line[i + 1]);
      }
    }
  }

  lemma {:induction false} TimesAreTheLines(lines: seq<seq<Point>>, t: int)
    ensures t in TimesOf(lines) <==> exists k, i :: 0 <= k < |lines| && 0 <= i < |lines[k]| && lines[k][i].t == t
    decreases |lines|
  {
    if lines != [] {
      var front, last := lines[..|lines| - 1], lines[|lines| - 1];
      TimesAreTheLines(front, t);
      var times := seq(|last|, i requires 0 <= i < |last| => last[i].t);
      assert TimesOf(lines) == TimesOf(front) + times;
      if t in times {
        var i :| 0 <= i < |times| && times[i] == t;
        assert lines[|lines| - 1][i].t == t;
      }
      if t in TimesOf(front) {
        var k, i :| 0 <= k < |front| && 0 <= i < |front[k]| && front[k][i].t == t;
        assert lines[k][i].t == t;
      }
      if k, i :| 0 <= k < |lines| && 0 <= i < |lines[k]| && lines[k][i].t == t {
        if k < |front| {
          assert front[k][i].t == t;
        } else {
          assert times[i] == t;
        }
      }
    }
  }

  /** The lines of a portfolio at one moment, as far as they are shown. */
  function Carried(lines: seq<seq<Point>>, t: int): seq<int> {
    seq(|lines|, k requires 0 <= k < |lines| => CarriedAt(lines[k], t))
  }

  lemma {:induction false} TotalIsTheSum(lines: seq<seq<Point>>, t: int)
    ensures TotalAt(lines, t) == Sum(Carried(lines, t))
    decreases |lines|
  {
    if lines != [] {
      var front := lines[..|lines| - 1];
      TotalIsTheSum(front, t);
      assert Carried(lines, t) == Carried(front, t) + [CarriedAt(lines[|lines| - 1], t)];
      SumAppend(Carried(front, t), CarriedAt(lines[|lines| - 1], t));
    }
  }

  /** The portfolio has one point for each moment at which any of its lines has one, in ascending order,
      and its value there is the sum of what the lines are carried at. */
  lemma OnePointForEachMoment(lines: seq<seq<Point>>, t: int)
    ensures var points := Summed(lines);
            && (forall i, j :: 0 <= i < j < |points| ==> points[i].t < points[j].t)
            && ((exists i :: 0 <= i < |points| && points[i].t == t)
                <==> exists k, i :: 0 <= k < |lines| && 0 <= i < |lines[k]| && lines[k][i].t == t)
            && (forall i :: 0 <= i < |points| && points[i].t == t ==> points[i].value == Sum(Carried(lines, t)))
  {
    TimesAreTheLines(lines, t);
    TotalIsTheSum(lines, t);
    var ts, points := SortedUnion(TimesOf(lines)), Summed(lines);
    if t in ts {
      var i :| 0 <= i < |ts| && ts[i] == t;
      assert points[i].t == t;
    }
  }
}
