/**
 * PnL helpers (backend/engine/pnl.py): the equity curve built from realised
 * trade PnL, the percentage drawdown of an equity curve, and the check that
 * trade returns are not (nearly) constant.
 *
 * A trades table is a sequence of rows; a missing column is a flag on the
 * table.  Exit dates are day numbers.
 */
module Pnl {
  import opened Wrappers

  /** One trade's exit date and the value of the PnL column being summed. */
  datatype PnlRow = PnlRow(exitDate: int, pnl: real)

  /** A trades table: `hasColumn` says whether the requested PnL column exists. */
  datatype PnlTable = PnlTable(hasColumn: bool, rows: seq<PnlRow>)

  datatype EquityPoint = EquityPoint(date: int, equity: real)

  /** Python raises `KeyError` when the PnL column is absent. */
  datatype PnlError = MissingColumn

  predicate StrictlyIncreasing(s: seq<int>)
  {
    forall i, j :: 0 <= i < j < |s| ==> s[i] < s[j]
  }

  predicate IsExitDate(rows: seq<PnlRow>, d: int)
  {
    exists k :: 0 <= k < |rows| && rows[k].exitDate == d
  }

  // ---------------------------------------------------------------------
  // Sums over the rows of a trades table

  /** Sum of the PnL of the trades that exit on `d` (one `groupby` bucket). */
  function GroupSum(rows: seq<PnlRow>, d: int): real
  {
    if rows == [] then 0.0
    else (if rows[0].exitDate == d then rows[0].pnl else 0.0) + GroupSum(rows[1..], d)
  }

  /** Sum of the PnL of the trades that exit on or before `d`. */
  function SumUpTo(rows: seq<PnlRow>, d: int): real
  {
    if rows == [] then 0.0
    else (if rows[0].exitDate <= d then rows[0].pnl else 0.0) + SumUpTo(rows[1..], d)
  }

  /** Sum of the PnL of the trades that exit strictly before `d`. */
  function SumBefore(rows: seq<PnlRow>, d: int): real
  {
    if rows == [] then 0.0
    else (if rows[0].exitDate < d then rows[0].pnl else 0.0) + SumBefore(rows[1..], d)
  }

  function TotalPnl(rows: seq<PnlRow>): real
  {
    if rows == [] then 0.0 else rows[0].pnl + TotalPnl(rows[1..])
  }

  lemma {:induction false} SumUpToSplits(rows: seq<PnlRow>, d: int)
    ensures SumUpTo(rows, d) == SumBefore(rows, d) + GroupSum(rows, d)
  {
    if rows != [] {
      SumUpToSplits(rows[1..], d);
    }
  }

  /** When no trade exits strictly between `d0` and `d1`, everything that
      exits before `d1` exits on or before `d0`. */
  lemma {:induction false} NoExitBetween(rows: seq<PnlRow>, d0: int, d1: int)
    requires d0 < d1
    requires forall k :: 0 <= k < |rows| ==> !(d0 < rows[k].exitDate < d1)
    ensures SumBefore(rows, d1) == SumUpTo(rows, d0)
  {
    if rows != [] {
      NoExitBetween(rows[1..], d0, d1);
    }
  }

  lemma {:induction false} NothingBefore(rows: seq<PnlRow>, d: int)
    requires forall k :: 0 <= k < |rows| ==> rows[k].exitDate >= d
    ensures SumBefore(rows, d) == 0.0
  {
    if rows != [] {
      NothingBefore(rows[1..], d);
    }
  }

  lemma {:induction false} EverythingUpTo(rows: seq<PnlRow>, d: int)
    requires forall k :: 0 <= k < |rows| ==> rows[k].exitDate <= d
    ensures SumUpTo(rows, d) == TotalPnl(rows)
  {
    if rows != [] {
      EverythingUpTo(rows[1..], d);
    }
  }

  // ---------------------------------------------------------------------
  // The distinct exit dates in ascending order (the groupby index, sorted)

  function InsertDate(x: int, s: seq<int>): (r: seq<int>)
    requires StrictlyIncreasing(s)
    ensures StrictlyIncreasing(r)
    ensures forall y :: y in r <==> y in s || y == x
  {
    if s == [] then [x]
    else if x < s[0] then [x] + s
    else if x == s[0] then s
    else
      var rest := InsertDate(x, s[1..]);
      ConsIncreasing(s[0], rest, s[1..], x);
      [s[0]] + rest
  }

  /** Putting `d` in front of an increasing sequence whose elements come from
      `s` or are `x`, all above `d`, keeps it increasing. */
  lemma ConsIncreasing(d: int, rest: seq<int>, s: seq<int>, x: int)
    requires StrictlyIncreasing(rest) && d < x
    requires forall y :: y in rest <==> y in s || y == x
    requires forall i :: 0 <= i < |s| ==> d < s[i]
    ensures StrictlyIncreasing([d] + rest)
  {
    var r := [d] + rest;
    forall i, j | 0 <= i < j < |r| ensures r[i] < r[j] {
      assert r[j] == rest[j - 1] && rest[j - 1] in rest;
      if i > 0 {
        assert r[i] == rest[i - 1];
      }
    }
  }

  function ExitDates(rows: seq<PnlRow>): (r: seq<int>)
    ensures StrictlyIncreasing(r)
    ensures forall d :: d in r <==> IsExitDate(rows, d)
  {
    if rows == [] then []
    else
      var rest := ExitDates(rows[1..]);
      assert forall d :: IsExitDate(rows, d) <==> d == rows[0].exitDate || IsExitDate(rows[1..], d) by {
        forall d ensures IsExitDate(rows, d) ==> d == rows[0].exitDate || IsExitDate(rows[1..], d) {
          if IsExitDate(rows, d) && d != rows[0].exitDate {
            var k :| 0 <= k < |rows| && rows[k].exitDate == d;
            assert rows[1..][k - 1].exitDate == d;
          }
        }
        forall d | IsExitDate(rows[1..], d) ensures IsExitDate(rows, d) {
          var k :| 0 <= k < |rows[1..]| && rows[1..][k].exitDate == d;
          assert rows[k + 1].exitDate == d;
        }
      }
      InsertDate(rows[0].exitDate, rest)
  }

  /** Running sum of the per-date buckets, starting from `acc`. */
  function Cumulate(dates: seq<int>, rows: seq<PnlRow>, acc: real): (curve: seq<EquityPoint>)
    ensures |curve| == |dates|
    ensures forall i :: 0 <= i < |dates| ==> curve[i].date == dates[i]
  {
    if dates == [] then []
    else
      var next := acc + GroupSum(rows, dates[0]);
      [EquityPoint(dates[0], next)] + Cumulate(dates[1..], rows, next)
  }

  /**
   * `build_equity_curve`: nothing for a missing or empty table, `KeyError`
   * when the PnL column is absent, otherwise one point per distinct exit
   * date, in ascending order, holding the initial capital plus the running
   * sum of the per-date PnL totals.
   */
  function BuildEquityCurve(trades: Option<PnlTable>, initialCapital: real): (r: Result<seq<EquityPoint>, PnlError>)
    ensures (trades.None? || trades.value.rows == []) ==> r == Success([])
    ensures trades.Some? && trades.value.rows != [] ==> (r.Failure? <==> !trades.value.hasColumn)
  {
    if trades.None? || trades.value.rows == [] then Success([])
    else if !trades.value.hasColumn then Failure(MissingColumn)
    else
      var rows := trades.value.rows;
      Success(Cumulate(ExitDates(rows), rows, initialCapital))
  }

  /** Every exit date from `dates[0]` on appears in `dates`. */
  predicate Covers(rows: seq<PnlRow>, dates: seq<int>)
  {
    dates != [] ==> forall k :: 0 <= k < |rows| && rows[k].exitDate >= dates[0] ==> rows[k].exitDate in dates
  }

  lemma CoversTail(rows: seq<PnlRow>, dates: seq<int>)
    requires StrictlyIncreasing(dates) && |dates| > 1
    requires Covers(rows, dates)
    ensures forall k :: 0 <= k < |rows| ==> !(dates[0] < rows[k].exitDate < dates[1])
    ensures Covers(rows, dates[1..])
  {
    forall k | 0 <= k < |rows| ensures !(dates[0] < rows[k].exitDate < dates[1]) {
      if dates[0] < rows[k].exitDate {
        var j :| 0 <= j < |dates| && dates[j] == rows[k].exitDate;
        if j > 1 { assert dates[1] < dates[j]; }
      }
    }
    forall k | 0 <= k < |rows| && rows[k].exitDate >= dates[1] ensures rows[k].exitDate in dates[1..] {
      var j :| 0 <= j < |dates| && dates[j] == rows[k].exitDate;
      assert dates[1..][j - 1] == rows[k].exitDate;
    }
  }

  lemma CumulateIsRunningTotal(dates: seq<int>, rows: seq<PnlRow>, acc: real, initialCapital: real)
    requires StrictlyIncreasing(dates)
    requires dates != [] ==> acc == initialCapital + SumBefore(rows, dates[0])
    requires Covers(rows, dates)
    ensures forall i :: 0 <= i < |dates| ==>
      Cumulate(dates, rows, acc)[i].equity == initialCapital + SumUpTo(rows, dates[i])
  {
    forall i | 0 <= i < |dates| ensures Cumulate(dates, rows, acc)[i].equity == initialCapital + SumUpTo(rows, dates[i]) {
      CumulateAt(dates, rows, acc, initialCapital, i);
    }
  }

  /** Point `i` of the running sum holds the initial capital plus everything
      that exits on or before date `i`. */
  lemma {:induction false} CumulateAt(dates: seq<int>, rows: seq<PnlRow>, acc: real, initialCapital: real, i: nat)
    requires StrictlyIncreasing(dates) && i < |dates|
    requires acc == initialCapital + SumBefore(rows, dates[0])
    requires Covers(rows, dates)
    ensures Cumulate(dates, rows, acc)[i].equity == initialCapital + SumUpTo(rows, dates[i])
  {
    var next := acc + GroupSum(rows, dates[0]);
    var tail := dates[1..];
    assert Cumulate(dates, rows, acc) == [EquityPoint(dates[0], next)] + Cumulate(tail, rows, next);
    CumulateStep(dates, rows, acc, initialCapital);
    if i > 0 {
      CumulateAt(tail, rows, next, initialCapital, i - 1);
      assert dates[i] == tail[i - 1];
    }
  }

  /** One step of the running sum: the first point holds everything up to the
      first date, and what is carried forward is everything before the next. */
  lemma CumulateStep(dates: seq<int>, rows: seq<PnlRow>, acc: real, initialCapital: real)
    requires StrictlyIncreasing(dates) && dates != []
    requires acc == initialCapital + SumBefore(rows, dates[0])
    requires Covers(rows, dates)
    ensures var next := acc + GroupSum(rows, dates[0]);
      && next == initialCapital + SumUpTo(rows, dates[0])
      && StrictlyIncreasing(dates[1..])
      && Covers(rows, dates[1..])
      && (|dates| > 1 ==> next == initialCapital + SumBefore(rows, dates[1]))
  {
    SumUpToSplits(rows, dates[0]);
    if |dates| > 1 {
      CoversTail(rows, dates);
      NoExitBetween(rows, dates[0], dates[1]);
    }
  }

  /**
   * The equity curve has one point per distinct exit date, in strictly
   * ascending date order; the equity at each date is the initial capital plus
   * the PnL of every trade exiting on or before it; the last point holds the
   * initial capital plus the total PnL.
   */
  lemma EquityCurveSpec(rows: seq<PnlRow>, initialCapital: real)
    requires rows != []
    ensures var r := BuildEquityCurve(Some(PnlTable(true, rows)), initialCapital);
      && r.Success?
      && |r.value| >= 1
      && (forall i, j :: 0 <= i < j < |r.value| ==> r.value[i].date < r.value[j].date)
      && (forall d :: (exists i :: 0 <= i < |r.value| && r.value[i].date == d) <==> IsExitDate(rows, d))
      && (forall i :: 0 <= i < |r.value| ==> r.value[i].equity == initialCapital + SumUpTo(rows, r.value[i].date))
      && r.value[|r.value| - 1].equity == initialCapital + TotalPnl(rows)
  {
    var dates := ExitDates(rows);
    var curve := Cumulate(dates, rows, initialCapital);
    assert BuildEquityCurve(Some(PnlTable(true, rows)), initialCapital) == Success(curve);
    ExitDatesSpan(rows);
    assert Covers(rows, dates);
    NothingBefore(rows, dates[0]);
    CumulateIsRunningTotal(dates, rows, initialCapital, initialCapital);
    forall d ensures (exists i :: 0 <= i < |curve| && curve[i].date == d) <==> IsExitDate(rows, d) {
      if IsExitDate(rows, d) {
        var i :| 0 <= i < |dates| && dates[i] == d;
        assert curve[i].date == d;
      }
    }
    EverythingUpTo(rows, dates[|dates| - 1]);
  }

  /** Every exit date of a non-empty table is among the distinct exit dates,
      which run from the earliest exit date to the latest. */
  lemma ExitDatesSpan(rows: seq<PnlRow>)
    requires rows != []
    ensures var dates := ExitDates(rows);
      && dates != []
      && (forall k :: 0 <= k < |rows| ==> rows[k].exitDate in dates)
      && (forall k :: 0 <= k < |rows| ==> dates[0] <= rows[k].exitDate <= dates[|dates| - 1])
  {
    var dates := ExitDates(rows);
    assert IsExitDate(rows, rows[0].exitDate);
    forall k | 0 <= k < |rows| ensures rows[k].exitDate in dates && dates[0] <= rows[k].exitDate <= dates[|dates| - 1] {
      assert IsExitDate(rows, rows[k].exitDate);
      IncreasingBounds(dates, rows[k].exitDate);
    }
  }

  lemma IncreasingBounds(dates: seq<int>, d: int)
    requires StrictlyIncreasing(dates) && d in dates
    ensures dates[0] <= d <= dates[|dates| - 1]
  {
    var j :| 0 <= j < |dates| && dates[j] == d;
    if j > 0 { assert dates[0] < dates[j]; }
    if j < |dates| - 1 { assert dates[j] < dates[|dates| - 1]; }
  }


  // ---------------------------------------------------------------------
  // Drawdown

  /** `cummax()` at position `i`. */
  function RunningMax(equity: seq<real>, i: nat): (m: real)
    requires i < |equity|
    ensures forall j :: 0 <= j <= i ==> equity[j] <= m
    ensures exists j :: 0 <= j <= i && equity[j] == m
  {
    if i == 0 then equity[0]
    else
      var prev := RunningMax(equity, i - 1);
      if equity[i] > prev then equity[i] else prev
  }

  /**
   * `compute_drawdown`: `equity / cummax - 1` position by position (the date
   * index is carried through unchanged).  Where the running maximum is zero,
   * pandas produces an infinity or NaN; the model yields `None` there.
   */
  function ComputeDrawdown(equity: Option<seq<real>>): (dd: seq<Option<real>>)
    ensures equity.None? ==> dd == []
    ensures equity.Some? ==> |dd| == |equity.value|
  {
    if equity.None? then []
    else
      var e := equity.value;
      seq(|e|, i requires 0 <= i < |e| =>
        var m := RunningMax(e, i);
        if m == 0.0 then None else Some(e[i] / m - 1.0))
  }

  lemma RatioAtMostOne(x: real, m: real)
    requires 0.0 < x <= m
    ensures 0.0 < x / m <= 1.0
    ensures x / m == 1.0 <==> x == m
  {
    assert (x / m) * m == x;
  }

  /**
   * For a positive equity curve every drawdown is defined and lies in
   * (-1, 0], and it is exactly 0 precisely at a new running high.
   */
  lemma DrawdownBounds(equity: seq<real>, i: nat)
    requires i < |equity|
    requires forall j :: 0 <= j < |equity| ==> equity[j] > 0.0
    ensures var dd := ComputeDrawdown(Some(equity));
      && dd[i].Some?
      && -1.0 < dd[i].value <= 0.0
      && (dd[i].value == 0.0 <==> equity[i] == RunningMax(equity, i))
  {
    var m := RunningMax(equity, i);
    var j :| 0 <= j <= i && equity[j] == m;
    RatioAtMostOne(equity[i], m);
  }

  /** A curve that never falls has no drawdown. */
  lemma NonDecreasingHasNoDrawdown(equity: seq<real>)
    requires forall j :: 0 <= j < |equity| ==> equity[j] > 0.0
    requires forall j, k :: 0 <= j < k < |equity| ==> equity[j] <= equity[k]
    ensures forall i :: 0 <= i < |equity| ==> ComputeDrawdown(Some(equity))[i] == Some(0.0)
  {
    forall i | 0 <= i < |equity| ensures ComputeDrawdown(Some(equity))[i] == Some(0.0) {
      var m := RunningMax(equity, i);
      var j :| 0 <= j <= i && equity[j] == m;
      assert equity[i] == m;
      DrawdownBounds(equity, i);
    }
  }

  // ---------------------------------------------------------------------
  // Distinct-return ratio

  const DefaultConstantReturnThreshold: real := 0.5

  /** Rounding to 8 decimals (`round(8)`, half to even), as an integer count of 1e-8 units. */
  function Round8(x: real): int
  {
    var y := x * 100000000.0;
    var f := y.Floor;
    var frac := y - f as real;
    if frac > 0.5 then f + 1
    else if frac < 0.5 then f
    else if f % 2 == 0 then f else f + 1
  }

  /** The rounded value of every trade's return. */
  ghost function RoundedReturns(netReturns: seq<real>): set<int>
  {
    set k | 0 <= k < |netReturns| :: Round8(netReturns[k])
  }

  /** The set of distinct rounded returns (`round(8).nunique()`). */
  function DistinctReturns(netReturns: seq<real>): (keys: set<int>)
    ensures |keys| <= |netReturns|
    ensures netReturns != [] ==> |keys| >= 1
    ensures forall k :: 0 <= k < |netReturns| ==> Round8(netReturns[k]) in keys
  {
    if netReturns == [] then {}
    else
      var rest := DistinctReturns(netReturns[..|netReturns| - 1]);
      assert forall k :: 0 <= k < |netReturns| - 1 ==> netReturns[k] == netReturns[..|netReturns| - 1][k];
      rest + {Round8(netReturns[|netReturns| - 1])}
  }

  /** The distinct keys are exactly the trades' rounded returns, so their
      number is `nunique` of the rounded column. */
  lemma {:induction false} DistinctReturnsExact(netReturns: seq<real>)
    ensures DistinctReturns(netReturns) == RoundedReturns(netReturns)
  {
    if netReturns != [] {
      var init := netReturns[..|netReturns| - 1];
      DistinctReturnsExact(init);
      assert forall k :: 0 <= k < |init| ==> init[k] == netReturns[k];
    }
  }

  /** A trades table reduced to its `net_return` column (`hasColumn` says whether it exists). */
  datatype ReturnsTable = ReturnsTable(hasColumn: bool, netReturns: seq<real>)

  /** The ratio computed, and whether the low-variability warning was logged. */
  datatype ReturnCheck = ReturnCheck(ratio: real, warned: bool)

  /**
   * `warn_if_returns_constant`: `None` for a missing or empty table or a
   * missing `net_return` column; otherwise the ratio of distinct rounded
   * netReturns to trades, which lies in (0, 1], with a warning exactly when it
   * is below the threshold.
   */
  function WarnIfReturnsConstant(trades: Option<ReturnsTable>, threshold: real): (r: Option<ReturnCheck>)
    ensures r.None? <==> (trades.None? || trades.value.netReturns == [] || !trades.value.hasColumn)
    ensures r.Some? ==> 0.0 < r.value.ratio <= 1.0
    ensures r.Some? ==> (r.value.warned <==> r.value.ratio < threshold)
    ensures r.Some? ==> r.value.ratio * (|trades.value.netReturns| as real) == |DistinctReturns(trades.value.netReturns)| as real
  {
    if trades.None? || trades.value.netReturns == [] || !trades.value.hasColumn then None
    else
      var n := |trades.value.netReturns|;
      var distinct := |DistinctReturns(trades.value.netReturns)|;
      var ratio := distinct as real / n as real;
      RatioAtMostOne(distinct as real, n as real);
      Some(ReturnCheck(ratio, ratio < threshold))
  }

  /** Returns that all round to one value give a ratio of 1/n, so three or
      more such trades always trip the default threshold. */
  lemma {:induction false} ConstantReturnsWarn(netReturns: seq<real>)
    requires |netReturns| >= 3
    requires forall k :: 0 <= k < |netReturns| ==> Round8(netReturns[k]) == Round8(netReturns[0])
    ensures var r := WarnIfReturnsConstant(Some(ReturnsTable(true, netReturns)), DefaultConstantReturnThreshold);
      r.Some? && r.value.warned
  {
    var keys := DistinctReturns(netReturns);
    assert keys == {Round8(netReturns[0])} by {
      OnlyKeys(netReturns, Round8(netReturns[0]));
    }
    var n := |netReturns| as real;
    var r := WarnIfReturnsConstant(Some(ReturnsTable(true, netReturns)), DefaultConstantReturnThreshold);
    assert r.value.ratio * n == 1.0;
  }

  lemma {:induction false} OnlyKeys(netReturns: seq<real>, key: int)
    requires netReturns != []
    requires forall k :: 0 <= k < |netReturns| ==> Round8(netReturns[k]) == key
    ensures DistinctReturns(netReturns) == {key}
  {
    if |netReturns| > 1 {
      var init := netReturns[..|netReturns| - 1];
      assert forall k :: 0 <= k < |init| ==> init[k] == netReturns[k];
      OnlyKeys(init, key);
    }
  }
}
