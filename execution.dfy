/**
 * The trade execution engine (backend/engine/execution.py): it turns the
 * picks of the signal stage into candidate trades, works out how many of
 * them overlap at most, and replays their entries and exits in time order
 * against a cash balance, sizing each position from the cash and the free
 * slots and charging the basis-point fee on both sides.
 *
 * Dates are business-day indices: a pick on day `d` held for `h` business
 * days exits on day `d + h`.  Money is exact `real` arithmetic.
 */
module Execution {
  import opened Wrappers
  import Sorting
  import Text
  import Fees

  function Abs(x: real): real
  {
    if x < 0.0 then -x else x
  }

  // ---------------------------------------------------------------------------
  // Picks and candidates
  // ---------------------------------------------------------------------------

  /** One row of the picks table.  `fwdReturns[h]` is the row's value in the
      forward log-return column for a holding period of `h` days; a missing
      key is a NaN cell.  `date` and `adjClose` are `None` where the cell is
      missing. */
  datatype Pick = Pick(date: Option<int>, symbol: string, adjClose: Option<real>, fwdReturns: map<int, real>)

  /** The picks table: which forward-return columns it has, and its rows. */
  datatype PicksTable = PicksTable(returnColumns: set<int>, rows: seq<Pick>)

  datatype Candidate = Candidate(
    enterDate: int,
    exitDate: int,
    symbol: string,
    enterPrice: real,
    exitPrice: real,
    grossReturn: real)

  /** The holding period actually used: at least one day. */
  function ClampHold(holdDays: int): (h: int)
    ensures h >= 1
    ensures holdDays >= 1 ==> h == holdDays
    ensures holdDays < 1 ==> h == 1
  {
    if holdDays < 1 then 1 else holdDays
  }

  /** The simple return after the stop-loss floor `-|stopLoss|` and then the
      take-profit cap are applied. */
  function ClampReturn(gross: real, stopLoss: Option<real>, takeProfit: Option<real>): (r: real)
    ensures takeProfit.Some? ==> r <= takeProfit.value
    ensures (stopLoss.Some? && (takeProfit.None? || -Abs(stopLoss.value) <= takeProfit.value))
      ==> r >= -Abs(stopLoss.value)
    ensures ((stopLoss.None? || gross >= -Abs(stopLoss.value))
             && (takeProfit.None? || gross <= takeProfit.value))
      ==> r == gross
    ensures r == gross || (stopLoss.Some? && r == -Abs(stopLoss.value))
              || (takeProfit.Some? && r == takeProfit.value)
  {
    var floored := if stopLoss.Some? && gross < -Abs(stopLoss.value) then -Abs(stopLoss.value) else gross;
    if takeProfit.Some? && floored > takeProfit.value then takeProfit.value else floored
  }

  /** What every candidate satisfies. */
  predicate WellFormed(c: Candidate, hold: int, stopLoss: Option<real>, takeProfit: Option<real>)
  {
    && c.enterPrice > 0.0
    && c.exitPrice > 0.0
    && c.exitDate == c.enterDate + hold
    && c.exitPrice == c.enterPrice * (1.0 + c.grossReturn)
    && (takeProfit.Some? ==> c.grossReturn <= takeProfit.value)
    && ((stopLoss.Some? && (takeProfit.None? || -Abs(stopLoss.value) <= takeProfit.value))
        ==> c.grossReturn >= -Abs(stopLoss.value))
  }

  /** The candidate one pick yields, or `None` when the pick is skipped.
      `expm1` is the exponential minus one that turns a log return into a
      simple return. */
  function CandidateOf(p: Pick, hold: int, stopLoss: Option<real>, takeProfit: Option<real>,
                       expm1: real -> real): (c: Option<Candidate>)
    ensures c.None? <==>
      || hold !in p.fwdReturns
      || p.adjClose.None? || p.adjClose.value <= 0.0
      || p.date.None?
      || p.adjClose.value * (1.0 + ClampReturn(expm1(p.fwdReturns[hold]), stopLoss, takeProfit)) <= 0.0
    ensures c.Some? ==>
      && WellFormed(c.value, hold, stopLoss, takeProfit)
      && c.value.enterDate == p.date.value
      && c.value.symbol == p.symbol
      && c.value.enterPrice == p.adjClose.value
      && c.value.grossReturn == ClampReturn(expm1(p.fwdReturns[hold]), stopLoss, takeProfit)
  {
    if hold !in p.fwdReturns || p.adjClose.None? || p.adjClose.value <= 0.0 || p.date.None? then None
    else
      var gross := ClampReturn(expm1(p.fwdReturns[hold]), stopLoss, takeProfit);
      var exitPrice := p.adjClose.value * (1.0 + gross);
      if exitPrice <= 0.0 then None
      else Some(Candidate(p.date.value, p.date.value + hold, p.symbol, p.adjClose.value, exitPrice, gross))
  }

  /** The candidates of the rows, in row order. */
  function ValidCandidates(rows: seq<Pick>, hold: int, stopLoss: Option<real>, takeProfit: Option<real>,
                           expm1: real -> real): (cs: seq<Candidate>)
    ensures |cs| <= |rows|
    ensures forall c :: c in cs ==> WellFormed(c, hold, stopLoss, takeProfit)
  {
    if rows == [] then []
    else
      var front := ValidCandidates(rows[..|rows| - 1], hold, stopLoss, takeProfit, expm1);
      match CandidateOf(rows[|rows| - 1], hold, stopLoss, takeProfit, expm1)
      case None => front
      case Some(c) => front + [c]
  }

  /** The order of the candidate table: by entry date, exit date, then symbol. */
  predicate CandidateLe(a: Candidate, b: Candidate)
  {
    || a.enterDate < b.enterDate
    || (a.enterDate == b.enterDate
        && (a.exitDate < b.exitDate || (a.exitDate == b.exitDate && Text.StrLe(a.symbol, b.symbol))))
  }

  lemma CandidateLeIsPreorder()
    ensures Sorting.TotalPreorder(CandidateLe)
  {
    forall a, b ensures CandidateLe(a, b) || CandidateLe(b, a) {
      Text.StrLeTotal(a.symbol, b.symbol);
    }
    forall a, b, c | CandidateLe(a, b) && CandidateLe(b, c) ensures CandidateLe(a, c) {
      if a.enterDate == b.enterDate == c.enterDate && a.exitDate == b.exitDate == c.exitDate {
        Text.StrLeTransitive(a.symbol, b.symbol, c.symbol);
      }
    }
  }

  /** The candidate table: empty without picks, without rows or without the
      return column for the holding period; otherwise the stable sort of the
      row-order candidates. */
  function Candidates(picks: Option<PicksTable>, holdDays: int, stopLoss: Option<real>,
                      takeProfit: Option<real>, expm1: real -> real): seq<Candidate>
  {
    if picks.None? || picks.value.rows == [] || ClampHold(holdDays) !in picks.value.returnColumns then []
    else
      Sorting.InsertionSort(
        ValidCandidates(picks.value.rows, ClampHold(holdDays), stopLoss, takeProfit, expm1), CandidateLe)
  }

  method PrepareCandidates(picks: Option<PicksTable>, holdDays: int, stopLoss: Option<real>,
                           takeProfit: Option<real>, expm1: real -> real)
    returns (cands: seq<Candidate>)
    ensures cands == Candidates(picks, holdDays, stopLoss, takeProfit, expm1)
    ensures (picks.None? || picks.value.rows == [] || ClampHold(holdDays) !in picks.value.returnColumns)
      ==> cands == []
    ensures picks.Some? && ClampHold(holdDays) in picks.value.returnColumns ==>
              multiset(cands) == multiset(ValidCandidates(picks.value.rows, ClampHold(holdDays),
                                                          stopLoss, takeProfit, expm1))
    ensures Sorting.Sorted(cands, CandidateLe)
    ensures forall c :: c in cands ==> WellFormed(c, ClampHold(holdDays), stopLoss, takeProfit)
  {
    if picks.None? || picks.value.rows == [] {
      return [];
    }
    var hold := ClampHold(holdDays);
    if hold !in picks.value.returnColumns {
      return [];
    }
    var rows := picks.value.rows;
    var records: seq<Candidate> := [];
    for i := 0 to |rows|
      invariant records == ValidCandidates(rows[..i], hold, stopLoss, takeProfit, expm1)
    {
      assert rows[..i + 1][..i] == rows[..i];
      var c := CandidateOf(rows[i], hold, stopLoss, takeProfit, expm1);
      if c.Some? {
        records := records + [c.value];
      }
    }
    assert rows[..|rows|] == rows;
    CandidateLeIsPreorder();
    Sorting.InsertionSortSorted(records, CandidateLe);
    cands := Sorting.InsertionSort(records, CandidateLe);
    assert forall c :: c in cands ==> c in multiset(records);
  }

  // ---------------------------------------------------------------------------
  // The largest number of overlapping candidates
  // ---------------------------------------------------------------------------

  /** `+1` when a candidate opens, `-1` when it closes. */
  datatype SweepEvent = SweepEvent(time: int, delta: int)

  /** Ordered by time, and at equal times closings before openings. */
  predicate SweepLe(a: SweepEvent, b: SweepEvent)
  {
    a.time < b.time || (a.time == b.time && a.delta <= b.delta)
  }

  lemma SweepLeIsPreorder()
    ensures Sorting.TotalPreorder(SweepLe)
  {
  }

  function SweepEvents(trades: seq<Candidate>): (evs: seq<SweepEvent>)
    ensures |evs| == 2 * |trades|
    ensures forall k :: 0 <= k < |trades| ==>
      evs[2 * k] == SweepEvent(trades[k].enterDate, 1) && evs[2 * k + 1] == SweepEvent(trades[k].exitDate, -1)
  {
    if trades == [] then []
    else
      var last := trades[|trades| - 1];
      SweepEvents(trades[..|trades| - 1]) + [SweepEvent(last.enterDate, 1), SweepEvent(last.exitDate, -1)]
  }

  function SortedSweep(trades: seq<Candidate>): seq<SweepEvent>
  {
    Sorting.InsertionSort(SweepEvents(trades), SweepLe)
  }

  function Delta(e: SweepEvent): int
  {
    e.delta
  }

  function Opening(e: SweepEvent): int
  {
    if e.delta > 0 then e.delta else 0
  }

  /** The number of open candidates after the first `k` events. */
  function RunningCount(evs: seq<SweepEvent>, k: nat): int
    requires k <= |evs|
  {
    Sorting.SumOf(evs[..k], Delta)
  }

  lemma RunningCountStep(evs: seq<SweepEvent>, k: nat)
    requires k < |evs|
    ensures RunningCount(evs, k + 1) == RunningCount(evs, k) + evs[k].delta
  {
    assert evs[..k + 1][..k] == evs[..k];
  }

  /** The largest running count over the first `k` events, or zero. */
  function PeakUpTo(evs: seq<SweepEvent>, k: nat): (m: nat)
    requires k <= |evs|
    ensures forall j :: 0 <= j <= k ==> RunningCount(evs, j) <= m
    ensures m == 0 || exists j :: 0 < j <= k && m == RunningCount(evs, j)
  {
    if k == 0 then 0
    else
      var best := PeakUpTo(evs, k - 1);
      var active := RunningCount(evs, k);
      if active > best then active else best
  }

  function Peak(trades: seq<Candidate>): nat
  {
    PeakUpTo(SortedSweep(trades), 2 * |trades|)
  }

  method MaxActivePositions(trades: seq<Candidate>) returns (peak: nat)
    ensures trades == [] ==> peak == 0
    ensures peak == Peak(trades)
  {
    if trades == [] {
      return 0;
    }
    var events: seq<SweepEvent> := [];
    for i := 0 to |trades|
      invariant events == SweepEvents(trades[..i])
    {
      var pair := [SweepEvent(trades[i].enterDate, 1), SweepEvent(trades[i].exitDate, -1)];
      assert SweepEvents(trades[..i + 1]) == events + pair by {
        assert trades[..i + 1][..i] == trades[..i];
      }
      events := events + pair;
    }
    assert trades[..|trades|] == trades;
    events := Sorting.InsertionSort(events, SweepLe);
    peak := Sweep(events);
  }

  /** One pass over the sorted events, keeping the running count and its
      largest value. */
  method Sweep(events: seq<SweepEvent>) returns (peak: nat)
    ensures peak == PeakUpTo(events, |events|)
  {
    var active := 0;
    var maxActive := 0;
    for k := 0 to |events|
      invariant active == RunningCount(events, k)
      invariant maxActive == PeakUpTo(events, k)
    {
      RunningCountStep(events, k);
      active := active + events[k].delta;
      maxActive := if active > maxActive then active else maxActive;
    }
    peak := maxActive;
  }

  /** The sweep visits events in time order and, at equal times, closes
      positions before it opens new ones. */
  lemma SweepClosesFirst(trades: seq<Candidate>)
    ensures var evs := SortedSweep(trades);
      forall i, j :: 0 <= i < j < |evs| ==>
        evs[i].time <= evs[j].time && (evs[i].time == evs[j].time ==> evs[i].delta <= evs[j].delta)
  {
    SweepLeIsPreorder();
    Sorting.InsertionSortSorted(SweepEvents(trades), SweepLe);
  }

  lemma {:induction false} OpeningsOfSweep(trades: seq<Candidate>)
    ensures Sorting.SumOf(SweepEvents(trades), Opening) == |trades|
  {
    if trades != [] {
      var last := trades[|trades| - 1];
      var pair := [SweepEvent(last.enterDate, 1), SweepEvent(last.exitDate, -1)];
      OpeningsOfSweep(trades[..|trades| - 1]);
      assert SweepEvents(trades) == SweepEvents(trades[..|trades| - 1]) + pair;
      Sorting.SumOfConcat(SweepEvents(trades[..|trades| - 1]), pair, Opening);
      assert pair[..1] == [pair[0]] && pair[..1][..0] == [];
      assert Sorting.SumOf(pair[..1], Opening) == 1;
      assert Sorting.SumOf(pair, Opening) == 1;
    }
  }

  /** No more candidates are open at once than there are candidates. */
  lemma PeakAtMostTrades(trades: seq<Candidate>)
    ensures Peak(trades) <= |trades|
  {
    var evs := SortedSweep(trades);
    var m := Peak(trades);
    if m != 0 {
      var j :| 0 < j <= |evs| && m == RunningCount(evs, j);
      Sorting.SumOfMonotone(evs[..j], Delta, Opening);
      Sorting.SumOfPrefix(evs, j, Opening);
      Sorting.SumOfPermutation(evs, SweepEvents(trades), Opening);
      OpeningsOfSweep(trades);
    }
  }

  /** When every candidate exits after it enters, the sweep starts with an
      opening. */
  lemma SweepStartsWithOpening(trades: seq<Candidate>)
    requires trades != []
    requires forall c :: c in trades ==> c.enterDate < c.exitDate
    ensures SortedSweep(trades)[0].delta == 1
  {
    var raw := SweepEvents(trades);
    var evs := SortedSweep(trades);
    assert evs[0] in multiset(raw);
    var p :| 0 <= p < |raw| && raw[p] == evs[0];
    var k := p / 2;
    SweepEventAt(trades, p);
    var t := trades[k];
    assert t in trades;
    var opening := SweepEvent(t.enterDate, 1);
    assert opening in multiset(evs) by {
      assert raw[2 * k] == opening;
    }
    assert evs[0].time <= t.enterDate by {
      SweepFirstIsLeast(trades, opening);
    }
  }

  /** Event `p` of the unsorted sweep is the opening of candidate `p / 2`
      when `p` is even and its closing when `p` is odd. */
  lemma SweepEventAt(trades: seq<Candidate>, p: nat)
    requires p < 2 * |trades|
    ensures p / 2 < |trades|
    ensures SweepEvents(trades)[p] == if p % 2 == 0 then SweepEvent(trades[p / 2].enterDate, 1)
                                      else SweepEvent(trades[p / 2].exitDate, -1)
  {
    var k := p / 2;
    assert p == 2 * k || p == 2 * k + 1;
  }

  /** The sorted sweep's first event comes no later than any event. */
  lemma SweepFirstIsLeast(trades: seq<Candidate>, x: SweepEvent)
    requires x in multiset(SortedSweep(trades))
    ensures SweepLe(SortedSweep(trades)[0], x)
  {
    var evs := SortedSweep(trades);
    SweepLeIsPreorder();
    Sorting.InsertionSortSorted(SweepEvents(trades), SweepLe);
    var q :| 0 <= q < |evs| && evs[q] == x;
    if q > 0 {
      assert SweepLe(evs[0], evs[q]);
    }
  }

  /** A non-empty table of candidates that exit after they enter has at
      least one open position at some point. */
  lemma PeakPositive(trades: seq<Candidate>)
    requires trades != []
    requires forall c :: c in trades ==> c.enterDate < c.exitDate
    ensures Peak(trades) >= 1
  {
    var evs := SortedSweep(trades);
    SweepStartsWithOpening(trades);
    assert evs[..1][..0] == [];
    assert evs[..1][0] == evs[0];
    assert Sorting.SumOf(evs[..1], Delta) == Sorting.SumOf(evs[..1][..0], Delta) + Delta(evs[0]);
    assert RunningCount(evs, 1) == 1;
  }

  // ---------------------------------------------------------------------------
  // Replaying entries and exits
  // ---------------------------------------------------------------------------

  datatype TradeBuilderConfig = TradeBuilderConfig(
    holdDays: int,
    feeModel: Fees.FeeModel,
    initialCapital: real,
    stopLossPct: Option<real>,
    takeProfitPct: Option<real>,
    compound: bool)

  /** How far above the cash a purchase's cost may go before it is refused. */
  const CashTolerance: real := 0.000001

  datatype EventKind = Exit | Entry

  /** The entry or exit of candidate number `idx` on day `ts`. */
  datatype TradeEvent = TradeEvent(ts: int, kind: EventKind, idx: nat)

  /** Ordered by day, and on one day exits before entries. */
  predicate EventLe(a: TradeEvent, b: TradeEvent)
  {
    a.ts < b.ts || (a.ts == b.ts && (a.kind == Exit || b.kind == Entry))
  }

  lemma EventLeIsPreorder()
    ensures Sorting.TotalPreorder(EventLe)
  {
  }

  /** Each candidate's entry followed by its exit, in candidate order. */
  function TradeEvents(cands: seq<Candidate>): (evs: seq<TradeEvent>)
    ensures |evs| == 2 * |cands|
    ensures forall k :: 0 <= k < |cands| ==>
      evs[2 * k] == TradeEvent(cands[k].enterDate, Entry, k) && evs[2 * k + 1] == TradeEvent(cands[k].exitDate, Exit, k)
    ensures IndicesBelow(evs, |cands|)
  {
    if cands == [] then []
    else
      var n := |cands| - 1;
      TradeEvents(cands[..n]) + [TradeEvent(cands[n].enterDate, Entry, n), TradeEvent(cands[n].exitDate, Exit, n)]
  }

  /** Event `p` of the unsorted list is the entry of candidate `p / 2` when
      `p` is even and its exit when `p` is odd. */
  lemma TradeEventAt(cands: seq<Candidate>, p: nat)
    requires p < 2 * |cands|
    ensures p / 2 < |cands|
    ensures TradeEvents(cands)[p] == if p % 2 == 0 then TradeEvent(cands[p / 2].enterDate, Entry, p / 2)
                                     else TradeEvent(cands[p / 2].exitDate, Exit, p / 2)
  {
    var k := p / 2;
    assert p == 2 * k || p == 2 * k + 1;
  }

  /** The events in the order the engine visits them: a stable sort by day,
      exits first. */
  function SortedTradeEvents(cands: seq<Candidate>): (evs: seq<TradeEvent>)
    ensures multiset(evs) == multiset(TradeEvents(cands))
    ensures IndicesBelow(evs, |cands|)
  {
    var evs := Sorting.InsertionSort(TradeEvents(cands), EventLe);
    IndicesBelowPermutation(TradeEvents(cands), evs, |cands|);
    evs
  }

  /** Selects the events of kind `k` on day `d`. */
  function Slot(d: int, k: EventKind): TradeEvent -> bool
  {
    (e: TradeEvent) => e.ts == d && e.kind == k
  }

  /** Candidate numbers strictly increase along `evs`. */
  predicate IdxIncreasing(evs: seq<TradeEvent>)
  {
    forall i, j :: 0 <= i < j < |evs| ==> evs[i].idx < evs[j].idx
  }

  /** Before sorting, the entries (or the exits) of one day come in candidate
      order. */
  lemma {:induction false} TradeEventsSlotIncreasing(cands: seq<Candidate>, d: int, k: EventKind)
    ensures IdxIncreasing(Sorting.Filter(TradeEvents(cands), Slot(d, k)))
  {
    if cands != [] {
      var n := |cands| - 1;
      var front := TradeEvents(cands[..n]);
      var tail := [TradeEvent(cands[n].enterDate, Entry, n), TradeEvent(cands[n].exitDate, Exit, n)];
      assert TradeEvents(cands) == front + tail;
      TradeEventsSlotIncreasing(cands[..n], d, k);
      Sorting.FilterConcat(front, tail, Slot(d, k));
      var a := Sorting.Filter(front, Slot(d, k));
      var b := Sorting.Filter(tail, Slot(d, k));
      assert forall i :: 0 <= i < |a| ==> a[i].idx < n by {
        forall i | 0 <= i < |a| ensures a[i].idx < n {
          assert a[i] in front;
          var p :| 0 <= p < |front| && front[p] == a[i];
        }
      }
      assert tail[1..][1..] == [];
      assert |b| <= 1 && forall y :: y in b ==> y.idx == n;
      forall i, j | 0 <= i < j < |a + b| ensures (a + b)[i].idx < (a + b)[j].idx {
        if j < |a| {
        } else {
          assert (a + b)[j] in b;
        }
      }
    }
  }

  /** Sorting keeps the entries (and the exits) of one day in the order of
      the candidate list, so the engine handles them in candidate order. */
  lemma SortedEventsStable(cands: seq<Candidate>, d: int, k: EventKind)
    ensures Sorting.Filter(SortedTradeEvents(cands), Slot(d, k)) == Sorting.Filter(TradeEvents(cands), Slot(d, k))
    ensures IdxIncreasing(Sorting.Filter(SortedTradeEvents(cands), Slot(d, k)))
  {
    Sorting.InsertionSortStable(TradeEvents(cands), EventLe, Slot(d, k));
    TradeEventsSlotIncreasing(cands, d, k);
  }

  lemma IndicesBelowPermutation(a: seq<TradeEvent>, b: seq<TradeEvent>, n: nat)
    requires IndicesBelow(a, n) && multiset(a) == multiset(b)
    ensures IndicesBelow(b, n)
  {
    forall i | 0 <= i < |b| ensures b[i].idx < n {
      assert b[i] in multiset(a);
    }
  }

  datatype Position = Position(
    quantity: real,
    buyNotional: real,
    buyFee: real,
    enterPrice: real,
    capitalAllocated: real,
    marketValue: real)

  /** The ledger's `event` and `side` columns: both hold "buy" or "sell". */
  datatype Side = Buy | Sell

  datatype LedgerEntry = LedgerEntry(
    ts: int,
    side: Side,
    symbol: string,
    quantity: real,
    price: real,
    notional: real,
    fee: real,
    pnl: real,
    cash: real,
    equity: real)

  datatype Trade = Trade(
    enterDate: int,
    exitDate: int,
    symbol: string,
    side: string,
    enterPrice: real,
    exitPrice: real,
    quantity: real,
    buyNotional: real,
    sellNotional: real,
    buyFee: real,
    sellFee: real,
    grossPnl: real,
    netPnl: real,
    grossReturn: real,
    netReturn: real,
    capitalAllocated: real,
    fees: real,
    notional: real)

  /** The engine's state between events: cash, the open positions keyed by
      candidate number, the ledger and the realised trades. */
  datatype Book = Book(cash: real, open: map<nat, Position>, ledger: seq<LedgerEntry>, realised: seq<Trade>)

  /** The sizing parameters fixed before the replay starts. */
  datatype Sizing = Sizing(fee: Fees.FeeModel, initialCapital: real, maxActive: nat, compound: bool)

  /** The starting cash: the configured capital, but at least 1. */
  function FlooredCapital(config: TradeBuilderConfig): (capital: real)
    ensures capital >= 1.0 && capital >= config.initialCapital
    ensures config.initialCapital >= 1.0 ==> capital == config.initialCapital
  {
    if config.initialCapital > 1.0 then config.initialCapital else 1.0
  }

  /** The slot count is the largest overlap of the candidates, but at least 1. */
  function SizingFor(config: TradeBuilderConfig, cands: seq<Candidate>): (s: Sizing)
    ensures s.initialCapital == FlooredCapital(config)
    ensures s.maxActive >= 1 && (Peak(cands) >= 1 ==> s.maxActive == Peak(cands))
  {
    Sizing(config.feeModel, FlooredCapital(config), if Peak(cands) > 1 then Peak(cands) else 1, config.compound)
  }

  /** The sum of `f` over the open positions of candidates `0 .. n - 1`. */
  function OpenSum(open: map<nat, Position>, n: nat, f: Position -> real): real
  {
    if n == 0 then 0.0
    else OpenSum(open, n - 1, f) + (if n - 1 in open then f(open[n - 1]) else 0.0)
  }

  function MarketValue(p: Position): real
  {
    p.marketValue
  }

  function CostBasis(p: Position): real
  {
    p.buyNotional + p.buyFee
  }

  /** Cash plus the market value of the open positions; positions are keyed
      by candidate number, so `n`, the number of candidates, bounds the keys. */
  function CurrentEquity(cash: real, open: map<nat, Position>, n: nat): real
  {
    cash + OpenSum(open, n, MarketValue)
  }

  lemma {:induction false} OpenSumInsert(open: map<nat, Position>, n: nat, k: nat, p: Position, f: Position -> real)
    requires k < n && k !in open
    ensures OpenSum(open[k := p], n, f) == OpenSum(open, n, f) + f(p)
  {
    if n - 1 == k {
      OpenSumUnchanged(open, open[k := p], k, f);
    } else {
      OpenSumInsert(open, n - 1, k, p, f);
    }
  }

  lemma {:induction false} OpenSumRemove(open: map<nat, Position>, n: nat, k: nat, f: Position -> real)
    requires k < n && k in open
    ensures OpenSum(open - {k}, n, f) == OpenSum(open, n, f) - f(open[k])
  {
    if n - 1 == k {
      OpenSumUnchanged(open, open - {k}, k, f);
    } else {
      OpenSumRemove(open, n - 1, k, f);
    }
  }

  /** Two maps that agree below `n` have the same sum up to `n`. */
  lemma {:induction false} OpenSumUnchanged(a: map<nat, Position>, b: map<nat, Position>, n: nat, f: Position -> real)
    requires forall k :: 0 <= k < n ==> (k in a <==> k in b) && (k in a ==> a[k] == b[k])
    ensures OpenSum(a, n, f) == OpenSum(b, n, f)
  {
    if n > 0 {
      OpenSumUnchanged(a, b, n - 1, f);
    }
  }

  lemma {:induction false} OpenSumEmpty(n: nat, f: Position -> real)
    ensures OpenSum(map[], n, f) == 0.0
  {
    if n > 0 {
      OpenSumEmpty(n - 1, f);
    }
  }

  /** A purchase recorded at its notional lowers equity by exactly its fee. */
  lemma BuyCostsOnlyTheFee(cash: real, open: map<nat, Position>, n: nat, k: nat, p: Position)
    requires k < n && k !in open
    requires p.marketValue == p.buyNotional
    ensures CurrentEquity(cash - CostBasis(p), open[k := p], n) == CurrentEquity(cash, open, n) - p.buyFee
  {
    OpenSumInsert(open, n, k, p, MarketValue);
  }

  /** The capital an entry may use while a slot is free: the cash split over
      the free slots when compounding, otherwise the initial capital split
      over all slots; never more than the cash. */
  function Allocation(s: Sizing, cash: real, openCount: nat): (allocation: real)
    requires openCount < s.maxActive
    ensures allocation <= cash
    ensures s.compound && cash >= 0.0 ==> allocation * (s.maxActive - openCount) as real == cash
    ensures !s.compound ==> allocation <= s.initialCapital / s.maxActive as real
    ensures !s.compound ==> allocation == cash || allocation == s.initialCapital / s.maxActive as real
  {
    var base := if s.compound then cash / (s.maxActive - openCount) as real
                else s.initialCapital / s.maxActive as real;
    if base < cash then base else cash
  }

  /** The units an allocation buys once the fee is added to the price, or
      zero when that price is not positive. */
  function Quantity(fee: Fees.FeeModel, price: real, allocation: real): real
  {
    var denominator := price * (1.0 + fee.Rate());
    if denominator > 0.0 then allocation / denominator else 0.0
  }

  function Purchase(fee: Fees.FeeModel, price: real, quantity: real, allocation: real): Position
  {
    var buyNotional := price * quantity;
    Position(quantity, buyNotional, fee.FeeForNotional(buyNotional), price, allocation, buyNotional)
  }

  /** The book after position `p` of candidate `c` is bought. */
  function Opened(b: Book, ev: TradeEvent, c: Candidate, p: Position, n: nat): Book
  {
    var cash := b.cash - CostBasis(p);
    var open := b.open[ev.idx := p];
    var entry := LedgerEntry(ev.ts, Buy, c.symbol, p.quantity, c.enterPrice, p.buyNotional, p.buyFee, 0.0,
                             cash, CurrentEquity(cash, open, n));
    Book(cash, open, b.ledger + [entry], b.realised)
  }

  /** The position an entry buys, or `None` when it is skipped: without a
      free slot, without capital to allocate, for a quantity that is not
      positive, or when the cost exceeds the cash by more than the tolerance. */
  function Entered(s: Sizing, cands: seq<Candidate>, b: Book, ev: TradeEvent): (r: Option<Position>)
    requires ev.idx < |cands|
    ensures |b.open| >= s.maxActive ==> r.None?
  {
    if |b.open| >= s.maxActive then None
    else
      var c := cands[ev.idx];
      var allocation := Allocation(s, b.cash, |b.open|);
      var quantity := Quantity(s.fee, c.enterPrice, allocation);
      if allocation <= 0.0 || quantity <= 0.0 then None
      else
        var p := Purchase(s.fee, c.enterPrice, quantity, allocation);
        if CostBasis(p) - b.cash > CashTolerance then None
        else Some(p)
  }

  /** An entry: the book with the position bought, if any. */
  function Enter(s: Sizing, cands: seq<Candidate>, b: Book, ev: TradeEvent): (r: Book)
    requires ev.idx < |cands|
    ensures |b.open| >= s.maxActive ==> r == b
  {
    match Entered(s, cands, b, ev)
    case None => b
    case Some(p) => Opened(b, ev, cands[ev.idx], p, |cands|)
  }

  /** The trade realised when position `p` of candidate `c` is sold. */
  function Realise(fee: Fees.FeeModel, c: Candidate, p: Position): Trade
  {
    var sellNotional := c.exitPrice * p.quantity;
    var sellFee := fee.FeeForNotional(sellNotional);
    var grossPnl := sellNotional - p.buyNotional;
    var totalFees := p.buyFee + sellFee;
    var netPnl := grossPnl - totalFees;
    var netReturn := if p.buyNotional != 0.0 then netPnl / Abs(p.buyNotional) else 0.0;
    Trade(c.enterDate, c.exitDate, c.symbol, "long", c.enterPrice, c.exitPrice, p.quantity,
          p.buyNotional, sellNotional, p.buyFee, sellFee, grossPnl, netPnl, c.grossReturn,
          netReturn, p.capitalAllocated, totalFees, p.buyNotional)
  }

  /** An exit: ignored unless the candidate's position is open. */
  function Leave(s: Sizing, cands: seq<Candidate>, b: Book, ev: TradeEvent): (r: Book)
    requires ev.idx < |cands|
    ensures ev.idx !in b.open ==> r == b
    ensures ev.idx in b.open ==> r.open == b.open - {ev.idx} && |r.realised| == |b.realised| + 1
  {
    if ev.idx !in b.open then b
    else
      var c := cands[ev.idx];
      var t := Realise(s.fee, c, b.open[ev.idx]);
      var cash := b.cash + (t.sellNotional - t.sellFee);
      var open := b.open - {ev.idx};
      var entry := LedgerEntry(ev.ts, Sell, c.symbol, t.quantity, c.exitPrice, t.sellNotional, t.sellFee, t.netPnl,
                               cash, CurrentEquity(cash, open, |cands|));
      Book(cash, open, b.ledger + [entry], b.realised + [t])
  }

  /** The state after one event. */
  function Step(s: Sizing, cands: seq<Candidate>, b: Book, ev: TradeEvent): Book
    requires s.maxActive >= 1 && ev.idx < |cands|
  {
    match ev.kind
    case Entry => Enter(s, cands, b, ev)
    case Exit => Leave(s, cands, b, ev)
  }

  predicate IndicesBelow(evs: seq<TradeEvent>, n: nat)
  {
    forall i :: 0 <= i < |evs| ==> evs[i].idx < n
  }

  function InitialBook(s: Sizing): Book
  {
    Book(s.initialCapital, map[], [], [])
  }

  /** The state after the events, one `Step` at a time from the initial book. */
  function Replay(s: Sizing, cands: seq<Candidate>, evs: seq<TradeEvent>): Book
    requires s.maxActive >= 1 && IndicesBelow(evs, |cands|)
  {
    if evs == [] then InitialBook(s)
    else Step(s, cands, Replay(s, cands, evs[..|evs| - 1]), evs[|evs| - 1])
  }

  // ---------------------------------------------------------------------------
  // What the replay keeps true
  // ---------------------------------------------------------------------------

  /** Candidate `k` has an event in `evs`, and every one of its events there
      is an entry: it was entered and has not been exited. */
  predicate Pending(evs: seq<TradeEvent>, k: nat)
  {
    && (exists i :: 0 <= i < |evs| && evs[i].idx == k)
    && (forall i :: 0 <= i < |evs| && evs[i].idx == k ==> evs[i].kind == Entry)
  }

  /** Every event names a candidate, and a candidate has at most one entry
      and at most one exit, the entry first. */
  predicate EventsWellFormed(evs: seq<TradeEvent>, n: nat)
  {
    && IndicesBelow(evs, n)
    && (forall i, j :: 0 <= i < j < |evs| && evs[i].idx == evs[j].idx ==>
          evs[i].kind == Entry && evs[j].kind == Exit)
  }

  /** An open position of candidate `c`: a positive quantity bought at the
      candidate's entry price, the fee of the model, and a cost (notional plus
      fee) that is exactly the capital allocated to it. */
  predicate PositionValid(p: Position, c: Candidate, fee: Fees.FeeModel)
  {
    && p.quantity > 0.0
    && p.enterPrice == c.enterPrice
    && p.buyNotional == c.enterPrice * p.quantity
    && p.buyNotional > 0.0
    && p.buyFee == fee.FeeForNotional(p.buyNotional)
    && p.capitalAllocated == p.buyNotional + p.buyFee
    && p.marketValue == p.buyNotional
  }

  /** The accounting identities of one realised trade. */
  predicate TradeConsistent(t: Trade, fee: Fees.FeeModel)
  {
    && t.side == "long"
    && t.quantity > 0.0
    && t.buyNotional == t.enterPrice * t.quantity
    && t.sellNotional == t.exitPrice * t.quantity
    && t.buyNotional > 0.0
    && t.buyFee == fee.FeeForNotional(t.buyNotional)
    && t.sellFee == fee.FeeForNotional(t.sellNotional)
    && t.grossPnl == t.sellNotional - t.buyNotional
    && t.fees == t.buyFee + t.sellFee
    && t.netPnl == t.grossPnl - t.fees
    && t.netReturn * t.buyNotional == t.netPnl
    && t.capitalAllocated == t.buyNotional + t.buyFee
    && t.notional == t.buyNotional
  }

  function RealisedPnl(trades: seq<Trade>): real
  {
    if trades == [] then 0.0 else RealisedPnl(trades[..|trades| - 1]) + trades[|trades| - 1].netPnl
  }

  function EntryWeight(e: TradeEvent): int
  {
    if e.kind == Entry then 1 else 0
  }

  /** The conditions under which cash never goes negative: a fee of at most
      100% and exit prices that are not negative. */
  predicate CashSafe(s: Sizing, cands: seq<Candidate>)
  {
    s.fee.Rate() <= 1.0 && forall c :: c in cands ==> c.exitPrice >= 0.0
  }

  predicate LastEntryAgrees(b: Book, n: nat)
  {
    b.ledger != [] ==>
      var last := b.ledger[|b.ledger| - 1];
      && last.cash == b.cash
      && last.equity == CurrentEquity(b.cash, b.open, n)
      && (last.side == Buy ==> b.open != map[])
  }

  /** Every open position belongs to a pending candidate and is valid. */
  predicate OpenInv(s: Sizing, cands: seq<Candidate>, evs: seq<TradeEvent>, b: Book)
  {
    forall k :: k in b.open ==> k < |cands| && Pending(evs, k) && PositionValid(b.open[k], cands[k], s.fee)
  }

  /** Cash plus the cost of the open positions is the initial capital plus
      the realised net profit: no money appears or disappears. */
  predicate Conserved(s: Sizing, cands: seq<Candidate>, b: Book)
  {
    b.cash + OpenSum(b.open, |cands|, CostBasis) == s.initialCapital + RealisedPnl(b.realised)
  }

  /** A purchase never overdraws the cash; with `CashSafe` no sale does either. */
  predicate CashInv(s: Sizing, cands: seq<Candidate>, b: Book)
  {
    && (forall e :: e in b.ledger && e.side == Buy ==> e.cash >= 0.0)
    && (CashSafe(s, cands) ==> b.cash >= 0.0 && forall e :: e in b.ledger ==> e.cash >= 0.0)
  }

  /** The invariant of the replay after the events `evs`. */
  predicate Inv(s: Sizing, cands: seq<Candidate>, evs: seq<TradeEvent>, b: Book)
  {
    && OpenInv(s, cands, evs, b)
    && |b.open| <= s.maxActive
    && (forall t :: t in b.realised ==> TradeConsistent(t, s.fee))
    && Conserved(s, cands, b)
    && |b.realised| + |b.open| <= Sorting.SumOf(evs, EntryWeight)
    && LastEntryAgrees(b, |cands|)
    && CashInv(s, cands, b)
  }

  lemma InitialInv(s: Sizing, cands: seq<Candidate>)
    requires s.initialCapital >= 0.0
    ensures Inv(s, cands, [], InitialBook(s))
  {
    OpenSumEmpty(|cands|, CostBasis);
  }

  /** Buying `allocation / (price * (1 + rate))` units costs, fee included,
      exactly the allocation. */
  lemma EntrySizing(fee: Fees.FeeModel, price: real, allocation: real)
    requires allocation > 0.0 && price * (1.0 + fee.Rate()) > 0.0
    ensures var q := allocation / (price * (1.0 + fee.Rate()));
      && q > 0.0 && price > 0.0 && price * q > 0.0
      && price * q + fee.FeeForNotional(price * q) == allocation
  {
    var g := 1.0 + fee.Rate();
    var d := price * g;
    var q := allocation / d;
    assert q * d == allocation;
    assert price == d / g;
    assert price * q > 0.0;
    Fees.CostOfPurchase(fee, price, q);
  }

  /** A candidate stays pending through any event other than its exit. */
  lemma PendingKept(evs: seq<TradeEvent>, ev: TradeEvent, k: nat)
    requires Pending(evs, k) && (ev.idx != k || ev.kind == Entry)
    ensures Pending(evs + [ev], k)
  {
    var i :| 0 <= i < |evs| && evs[i].idx == k;
    assert (evs + [ev])[i].idx == k;
  }

  /** An event that leaves the book alone keeps the invariant. */
  lemma {:induction false} UnchangedPreserves(s: Sizing, cands: seq<Candidate>, evs: seq<TradeEvent>, b: Book, ev: TradeEvent)
    requires ev.kind == Entry || ev.idx !in b.open
    requires Inv(s, cands, evs, b)
    ensures Inv(s, cands, evs + [ev], b)
  {
    var evs' := evs + [ev];
    assert evs'[..|evs|] == evs;
    assert Sorting.SumOf(evs', EntryWeight) >= Sorting.SumOf(evs, EntryWeight);
    forall k | k in b.open ensures Pending(evs', k) {
      PendingKept(evs, ev, k);
    }
  }

  /** A purchase that fits in the cash keeps the invariant. */
  lemma {:induction false} OpenedPreserves(s: Sizing, cands: seq<Candidate>, evs: seq<TradeEvent>, b: Book,
                                           ev: TradeEvent, p: Position)
    requires ev.kind == Entry && ev.idx < |cands|
    requires forall i :: 0 <= i < |evs| ==> evs[i].idx != ev.idx
    requires |b.open| < s.maxActive
    requires PositionValid(p, cands[ev.idx], s.fee) && CostBasis(p) <= b.cash
    requires Inv(s, cands, evs, b)
    ensures Inv(s, cands, evs + [ev], Opened(b, ev, cands[ev.idx], p, |cands|))
  {
    assert ev.idx !in b.open;
    OpenedCounts(s, cands, evs, b, ev, p);
    OpenedOpenInv(s, cands, evs, b, ev, p);
    OpenedConserved(s, cands, b, ev, p);
    OpenedLedger(s, cands, b, ev, p);
  }

  /** A purchase takes one free slot and adds one entry. */
  lemma OpenedCounts(s: Sizing, cands: seq<Candidate>, evs: seq<TradeEvent>, b: Book, ev: TradeEvent, p: Position)
    requires ev.kind == Entry && ev.idx < |cands| && ev.idx !in b.open
    requires |b.open| < s.maxActive && |b.realised| + |b.open| <= Sorting.SumOf(evs, EntryWeight)
    ensures var r := Opened(b, ev, cands[ev.idx], p, |cands|);
      |r.open| <= s.maxActive && |r.realised| + |r.open| <= Sorting.SumOf(evs + [ev], EntryWeight)
  {
    var evs' := evs + [ev];
    var r := Opened(b, ev, cands[ev.idx], p, |cands|);
    assert evs'[..|evs|] == evs;
    assert Sorting.SumOf(evs', EntryWeight) == Sorting.SumOf(evs, EntryWeight) + 1;
    assert r.open.Keys == b.open.Keys + {ev.idx};
  }

  /** A purchase moves its cost from the cash into the open positions. */
  lemma OpenedConserved(s: Sizing, cands: seq<Candidate>, b: Book, ev: TradeEvent, p: Position)
    requires ev.idx < |cands| && ev.idx !in b.open
    requires Conserved(s, cands, b)
    ensures Conserved(s, cands, Opened(b, ev, cands[ev.idx], p, |cands|))
  {
    OpenSumInsert(b.open, |cands|, ev.idx, p, CostBasis);
  }

  /** The purchase's ledger line records the cash and equity after it, and
      the cash it leaves is not negative. */
  lemma OpenedLedger(s: Sizing, cands: seq<Candidate>, b: Book, ev: TradeEvent, p: Position)
    requires ev.idx < |cands| && CostBasis(p) <= b.cash
    requires CashInv(s, cands, b)
    ensures LastEntryAgrees(Opened(b, ev, cands[ev.idx], p, |cands|), |cands|)
    ensures CashInv(s, cands, Opened(b, ev, cands[ev.idx], p, |cands|))
  {
    var r := Opened(b, ev, cands[ev.idx], p, |cands|);
    assert ev.idx in r.open;
    assert r.ledger == b.ledger + [r.ledger[|b.ledger|]];
    assert r.ledger[|b.ledger|].cash == r.cash >= 0.0;
  }

  /** The new position belongs to a candidate that has just become pending. */
  lemma OpenedOpenInv(s: Sizing, cands: seq<Candidate>, evs: seq<TradeEvent>, b: Book, ev: TradeEvent, p: Position)
    requires ev.kind == Entry && ev.idx < |cands|
    requires forall i :: 0 <= i < |evs| ==> evs[i].idx != ev.idx
    requires PositionValid(p, cands[ev.idx], s.fee)
    requires OpenInv(s, cands, evs, b)
    ensures OpenInv(s, cands, evs + [ev], Opened(b, ev, cands[ev.idx], p, |cands|))
  {
    var evs' := evs + [ev];
    var r := Opened(b, ev, cands[ev.idx], p, |cands|);
    forall k | k in r.open ensures k < |cands| && Pending(evs', k) && PositionValid(r.open[k], cands[k], s.fee) {
      if k == ev.idx {
        assert evs'[|evs|] == ev;
      } else {
        PendingKept(evs, ev, k);
      }
    }
  }

  /** Selling a valid position realises a trade with consistent accounts. */
  lemma RealiseConsistent(fee: Fees.FeeModel, c: Candidate, p: Position)
    requires PositionValid(p, c, fee)
    ensures TradeConsistent(Realise(fee, c, p), fee)
  {
    var t := Realise(fee, c, p);
    assert Abs(p.buyNotional) == p.buyNotional;
    assert t.netReturn == t.netPnl / p.buyNotional;
  }

  /** A sale of an open position keeps the invariant. */
  lemma {:induction false} ClosedPreserves(s: Sizing, cands: seq<Candidate>, evs: seq<TradeEvent>, b: Book,
                                           ev: TradeEvent)
    requires ev.kind == Exit && ev.idx < |cands| && ev.idx in b.open
    requires Inv(s, cands, evs, b)
    ensures Inv(s, cands, evs + [ev], Leave(s, cands, b, ev))
  {
    SaleCounts(s, cands, evs, b, ev);
    SaleOpenInv(s, cands, evs, b, ev);
    SaleRealised(s, cands, b, ev);
    SaleConserved(s, cands, b, ev);
    SaleKeepsCash(s, cands, b, ev);
    SaleLedger(s, cands, b, ev);
  }

  /** A sale turns one open position into one realised trade. */
  lemma SaleCounts(s: Sizing, cands: seq<Candidate>, evs: seq<TradeEvent>, b: Book, ev: TradeEvent)
    requires ev.kind == Exit && ev.idx < |cands| && ev.idx in b.open
    requires |b.open| <= s.maxActive && |b.realised| + |b.open| <= Sorting.SumOf(evs, EntryWeight)
    ensures var r := Leave(s, cands, b, ev);
      |r.open| <= s.maxActive && |r.realised| + |r.open| <= Sorting.SumOf(evs + [ev], EntryWeight)
  {
    var evs' := evs + [ev];
    var r := Leave(s, cands, b, ev);
    assert evs'[..|evs|] == evs;
    assert Sorting.SumOf(evs', EntryWeight) == Sorting.SumOf(evs, EntryWeight);
    assert r.open.Keys == b.open.Keys - {ev.idx};
  }

  /** The positions left open stay pending after another candidate's exit. */
  lemma SaleOpenInv(s: Sizing, cands: seq<Candidate>, evs: seq<TradeEvent>, b: Book, ev: TradeEvent)
    requires ev.idx < |cands| && ev.idx in b.open
    requires OpenInv(s, cands, evs, b)
    ensures OpenInv(s, cands, evs + [ev], Leave(s, cands, b, ev))
  {
    forall k | k in Leave(s, cands, b, ev).open ensures Pending(evs + [ev], k) {
      PendingKept(evs, ev, k);
    }
  }

  /** The realised trade has consistent accounts. */
  lemma SaleRealised(s: Sizing, cands: seq<Candidate>, b: Book, ev: TradeEvent)
    requires ev.idx < |cands| && ev.idx in b.open
    requires PositionValid(b.open[ev.idx], cands[ev.idx], s.fee)
    requires forall t :: t in b.realised ==> TradeConsistent(t, s.fee)
    ensures forall t :: t in Leave(s, cands, b, ev).realised ==> TradeConsistent(t, s.fee)
  {
    RealiseConsistent(s.fee, cands[ev.idx], b.open[ev.idx]);
  }

  /** Selling moves the position's cost basis plus its net profit into cash. */
  lemma SaleConserved(s: Sizing, cands: seq<Candidate>, b: Book, ev: TradeEvent)
    requires ev.idx < |cands| && ev.idx in b.open
    requires PositionValid(b.open[ev.idx], cands[ev.idx], s.fee)
    requires Conserved(s, cands, b)
    ensures Conserved(s, cands, Leave(s, cands, b, ev))
  {
    var r := Leave(s, cands, b, ev);
    var t := r.realised[|b.realised|];
    assert r.realised[..|b.realised|] == b.realised;
    assert RealisedPnl(r.realised) == RealisedPnl(b.realised) + t.netPnl;
    OpenSumRemove(b.open, |cands|, ev.idx, CostBasis);
  }

  /** The sale's ledger line records the cash and equity after it. */
  lemma SaleLedger(s: Sizing, cands: seq<Candidate>, b: Book, ev: TradeEvent)
    requires ev.idx < |cands| && ev.idx in b.open
    ensures LastEntryAgrees(Leave(s, cands, b, ev), |cands|)
  {
  }

  /** A sale adds a ledger line of side `Sell`; with `CashSafe` it takes in
      no less than its fee, so the cash does not fall. */
  lemma SaleKeepsCash(s: Sizing, cands: seq<Candidate>, b: Book, ev: TradeEvent)
    requires ev.idx < |cands| && ev.idx in b.open
    requires PositionValid(b.open[ev.idx], cands[ev.idx], s.fee)
    requires CashInv(s, cands, b)
    ensures CashInv(s, cands, Leave(s, cands, b, ev))
  {
    var r := Leave(s, cands, b, ev);
    var c := cands[ev.idx];
    var p := b.open[ev.idx];
    var t := Realise(s.fee, c, p);
    assert r.ledger[..|b.ledger|] == b.ledger;
    assert r.ledger[|b.ledger|].side == Sell;
    assert r.cash == b.cash + (t.sellNotional - t.sellFee);
    if CashSafe(s, cands) {
      assert c in cands;
      Fees.MulNonNegative(p.quantity, c.exitPrice);
      Fees.FeeAtMostNotional(s.fee, t.sellNotional);
      assert r.cash >= b.cash;
    }
  }

  /** An entry keeps the invariant. */
  lemma {:induction false} EnterPreserves(s: Sizing, cands: seq<Candidate>, evs: seq<TradeEvent>, b: Book, ev: TradeEvent)
    requires s.maxActive >= 1 && ev.kind == Entry && ev.idx < |cands|
    requires forall i :: 0 <= i < |evs| ==> evs[i].idx != ev.idx
    requires Inv(s, cands, evs, b)
    ensures Inv(s, cands, evs + [ev], Enter(s, cands, b, ev))
  {
    match Entered(s, cands, b, ev)
    case None =>
      UnchangedPreserves(s, cands, evs, b, ev);
    case Some(p) =>
      EnteredValid(s, cands, b, ev);
      OpenedPreserves(s, cands, evs, b, ev, p);
  }

  /** A position an entry buys is valid, takes a free slot and costs exactly
      its allocation, which the cash covers. */
  lemma EnteredValid(s: Sizing, cands: seq<Candidate>, b: Book, ev: TradeEvent)
    requires ev.idx < |cands| && Entered(s, cands, b, ev).Some?
    ensures var p := Entered(s, cands, b, ev).value;
      && |b.open| < s.maxActive
      && PositionValid(p, cands[ev.idx], s.fee)
      && CostBasis(p) == p.capitalAllocated
      && CostBasis(p) <= b.cash
  {
    var c := cands[ev.idx];
    var allocation := Allocation(s, b.cash, |b.open|);
    EntrySizing(s.fee, c.enterPrice, allocation);
  }

  lemma {:induction false} StepPreserves(s: Sizing, cands: seq<Candidate>, evs: seq<TradeEvent>, b: Book, ev: TradeEvent)
    requires s.maxActive >= 1 && ev.idx < |cands|
    requires EventsWellFormed(evs + [ev], |cands|)
    requires Inv(s, cands, evs, b)
    ensures Inv(s, cands, evs + [ev], Step(s, cands, b, ev))
  {
    match ev.kind
    case Exit =>
      if ev.idx in b.open {
        ClosedPreserves(s, cands, evs, b, ev);
      } else {
        UnchangedPreserves(s, cands, evs, b, ev);
      }
    case Entry =>
      var evs' := evs + [ev];
      forall i | 0 <= i < |evs| ensures evs[i].idx != ev.idx {
        assert evs'[i] == evs[i] && evs'[|evs|] == ev;
      }
      EnterPreserves(s, cands, evs, b, ev);
  }

  lemma {:induction false} ReplayInv(s: Sizing, cands: seq<Candidate>, evs: seq<TradeEvent>)
    requires s.maxActive >= 1 && s.initialCapital >= 0.0
    requires EventsWellFormed(evs, |cands|)
    ensures Inv(s, cands, evs, Replay(s, cands, evs))
  {
    if evs == [] {
      InitialInv(s, cands);
    } else {
      var front := evs[..|evs| - 1];
      var ev := evs[|evs| - 1];
      assert evs == front + [ev];
      assert EventsWellFormed(front, |cands|);
      ReplayInv(s, cands, front);
      StepPreserves(s, cands, front, Replay(s, cands, front), ev);
    }
  }

  // ---------------------------------------------------------------------------
  // The sorted events and the end of the replay
  // ---------------------------------------------------------------------------

  lemma TradeEventsDistinct(cands: seq<Candidate>)
    ensures Sorting.Distinct(TradeEvents(cands))
  {
    var evs := TradeEvents(cands);
    forall i, j | 0 <= i < j < |evs| ensures evs[i] != evs[j] {
      TradeEventAt(cands, i);
      TradeEventAt(cands, j);
    }
  }

  /** Every sorted event is one of the candidate events. */
  lemma SortedEventsFromCandidates(cands: seq<Candidate>, i: nat)
    requires i < |SortedTradeEvents(cands)|
    ensures exists p :: 0 <= p < |TradeEvents(cands)| && TradeEvents(cands)[p] == SortedTradeEvents(cands)[i]
  {
    var evs := SortedTradeEvents(cands);
    assert evs[i] in multiset(evs);
    assert evs[i] in multiset(TradeEvents(cands));
  }

  lemma SortedEventOrder(cands: seq<Candidate>, i: nat, j: nat)
    requires forall c :: c in cands ==> c.enterDate < c.exitDate
    requires Sorting.Sorted(SortedTradeEvents(cands), EventLe)
    requires Sorting.Distinct(SortedTradeEvents(cands))
    requires i < j < |SortedTradeEvents(cands)|
    requires SortedTradeEvents(cands)[i].idx == SortedTradeEvents(cands)[j].idx
    ensures SortedTradeEvents(cands)[i].kind == Entry && SortedTradeEvents(cands)[j].kind == Exit
  {
    var raw := TradeEvents(cands);
    var evs := SortedTradeEvents(cands);
    SortedEventsFromCandidates(cands, i);
    SortedEventsFromCandidates(cands, j);
    var p :| 0 <= p < |raw| && raw[p] == evs[i];
    var q :| 0 <= q < |raw| && raw[q] == evs[j];
    TradeEventAt(cands, p);
    TradeEventAt(cands, q);
    assert cands[p / 2] in cands;
    assert EventLe(evs[i], evs[j]);
    assert evs[i] != evs[j];
  }

  lemma SortedExitsPresent(cands: seq<Candidate>)
    ensures forall k :: 0 <= k < |cands| ==> TradeEvent(cands[k].exitDate, Exit, k) in SortedTradeEvents(cands)
  {
    var raw := TradeEvents(cands);
    var evs := SortedTradeEvents(cands);
    forall k | 0 <= k < |cands| ensures TradeEvent(cands[k].exitDate, Exit, k) in evs {
      assert raw[2 * k + 1] == TradeEvent(cands[k].exitDate, Exit, k);
      assert raw[2 * k + 1] in multiset(evs);
    }
  }

  /** When every candidate exits after it enters, the sorted events give each
      candidate exactly one entry and one later exit. */
  lemma SortedEventsWellFormed(cands: seq<Candidate>)
    requires forall c :: c in cands ==> c.enterDate < c.exitDate
    ensures EventsWellFormed(SortedTradeEvents(cands), |cands|)
    ensures forall k :: 0 <= k < |cands| ==> TradeEvent(cands[k].exitDate, Exit, k) in SortedTradeEvents(cands)
  {
    var raw := TradeEvents(cands);
    var evs := SortedTradeEvents(cands);
    EventLeIsPreorder();
    Sorting.InsertionSortSorted(raw, EventLe);
    TradeEventsDistinct(cands);
    Sorting.DistinctPermutation(raw, evs);
    forall i, j | 0 <= i < j < |evs| && evs[i].idx == evs[j].idx
      ensures evs[i].kind == Entry && evs[j].kind == Exit
    {
      SortedEventOrder(cands, i, j);
    }
    SortedExitsPresent(cands);
  }

  lemma {:induction false} EntriesOfEvents(cands: seq<Candidate>)
    ensures Sorting.SumOf(TradeEvents(cands), EntryWeight) == |cands|
  {
    if cands != [] {
      var n := |cands| - 1;
      var pair := [TradeEvent(cands[n].enterDate, Entry, n), TradeEvent(cands[n].exitDate, Exit, n)];
      EntriesOfEvents(cands[..n]);
      assert TradeEvents(cands) == TradeEvents(cands[..n]) + pair;
      Sorting.SumOfConcat(TradeEvents(cands[..n]), pair, EntryWeight);
      assert pair[..1] == [pair[0]] && pair[..1][..0] == [];
      assert Sorting.SumOf(pair[..1], EntryWeight) == 1;
      assert Sorting.SumOf(pair, EntryWeight) == 1;
    }
  }

  /** After all events no position is left open. */
  lemma NothingLeftOpen(s: Sizing, cands: seq<Candidate>)
    requires s.maxActive >= 1 && s.initialCapital >= 0.0
    requires forall c :: c in cands ==> c.enterDate < c.exitDate
    ensures EventsWellFormed(SortedTradeEvents(cands), |cands|)
    ensures Inv(s, cands, SortedTradeEvents(cands), Replay(s, cands, SortedTradeEvents(cands)))
    ensures Replay(s, cands, SortedTradeEvents(cands)).open == map[]
  {
    var evs := SortedTradeEvents(cands);
    SortedEventsWellFormed(cands);
    ReplayInv(s, cands, evs);
    var b := Replay(s, cands, evs);
    NonePendingAtEnd(cands);
    assert b.open.Keys == {};
  }

  /** Once all events are seen, every candidate has been exited. */
  lemma NonePendingAtEnd(cands: seq<Candidate>)
    ensures forall k :: 0 <= k < |cands| ==> !Pending(SortedTradeEvents(cands), k)
  {
    var evs := SortedTradeEvents(cands);
    SortedExitsPresent(cands);
    forall k | 0 <= k < |cands| ensures !Pending(evs, k) {
      var x := TradeEvent(cands[k].exitDate, Exit, k);
      var i :| 0 <= i < |evs| && evs[i] == x;
    }
  }

  /** After all events every position has been sold: the cash is the initial
      capital plus the realised net profit, at most one trade is realised per
      candidate, and the last ledger line is a sale whose cash and equity
      both equal that final cash. */
  lemma Settlement(s: Sizing, cands: seq<Candidate>)
    requires s.maxActive >= 1 && s.initialCapital >= 0.0
    requires forall c :: c in cands ==> c.enterDate < c.exitDate
    ensures EventsWellFormed(SortedTradeEvents(cands), |cands|)
    ensures var b := Replay(s, cands, SortedTradeEvents(cands));
      && b.open == map[]
      && b.cash == s.initialCapital + RealisedPnl(b.realised)
      && |b.realised| <= |cands|
      && (forall t :: t in b.realised ==> TradeConsistent(t, s.fee))
      && (forall e :: e in b.ledger && e.side == Buy ==> e.cash >= 0.0)
      && (CashSafe(s, cands) ==> forall e :: e in b.ledger ==> e.cash >= 0.0)
      && (b.ledger != [] ==>
            && b.ledger[|b.ledger| - 1].side == Sell
            && b.ledger[|b.ledger| - 1].cash == b.cash
            && b.ledger[|b.ledger| - 1].equity == b.cash)
  {
    var evs := SortedTradeEvents(cands);
    NothingLeftOpen(s, cands);
    Sorting.SumOfPermutation(evs, TradeEvents(cands), EntryWeight);
    EntriesOfEvents(cands);
    FlatBook(s, cands, evs, Replay(s, cands, evs));
  }

  /** A book with nothing open holds its whole value in cash. */
  lemma FlatBook(s: Sizing, cands: seq<Candidate>, evs: seq<TradeEvent>, b: Book)
    requires Inv(s, cands, evs, b) && b.open == map[]
    ensures b.cash == s.initialCapital + RealisedPnl(b.realised)
    ensures |b.realised| <= Sorting.SumOf(evs, EntryWeight)
    ensures forall t :: t in b.realised ==> TradeConsistent(t, s.fee)
    ensures forall e :: e in b.ledger && e.side == Buy ==> e.cash >= 0.0
    ensures CashSafe(s, cands) ==> forall e :: e in b.ledger ==> e.cash >= 0.0
    ensures b.ledger != [] ==>
      && b.ledger[|b.ledger| - 1].side == Sell
      && b.ledger[|b.ledger| - 1].cash == b.cash
      && b.ledger[|b.ledger| - 1].equity == b.cash
  {
    OpenSumEmpty(|cands|, CostBasis);
    OpenSumEmpty(|cands|, MarketValue);
    assert Conserved(s, cands, b);
    assert LastEntryAgrees(b, |cands|);
    assert CashInv(s, cands, b);
  }

  // ---------------------------------------------------------------------------
  // The engine's entry point
  // ---------------------------------------------------------------------------

  /** Prepares the candidates, then replays their entries and exits in time
      order (exits first on a day), sizing each entry from the cash and the
      free slots.  Returns the realised trades and the ledger. */
  method BuildTradesFromPicks(picks: Option<PicksTable>, config: TradeBuilderConfig, expm1: real -> real)
    returns (trades: seq<Trade>, ledger: seq<LedgerEntry>)
    ensures Settled(config, Candidates(picks, config.holdDays, config.stopLossPct, config.takeProfitPct, expm1),
                    trades, ledger)
  {
    var cands := PrepareCandidates(picks, config.holdDays, config.stopLossPct, config.takeProfitPct, expm1);
    trades, ledger := ExecuteCandidates(cands, config);
  }

  /** What the execution returns for a candidate table: nothing for no
      candidates, otherwise the realised trades and ledger of the replay of
      their sorted events; at most one trade per candidate, each with
      consistent accounts; no purchase overdraws the cash, and with a fee of
      at most 100% no ledger line shows negative cash; the last ledger line is
      a sale leaving everything in cash: the floored initial capital plus the
      realised net profit. */
  predicate Settled(config: TradeBuilderConfig, cands: seq<Candidate>, trades: seq<Trade>, ledger: seq<LedgerEntry>)
  {
    && (cands == [] ==> trades == [] && ledger == [])
    && (cands != [] ==>
          var b := Replay(SizingFor(config, cands), cands, SortedTradeEvents(cands));
          trades == b.realised && ledger == b.ledger)
    && |trades| <= |cands|
    && (forall t :: t in trades ==> TradeConsistent(t, config.feeModel))
    && (forall e :: e in ledger && e.side == Buy ==> e.cash >= 0.0)
    && (config.feeModel.Rate() <= 1.0 ==> forall e :: e in ledger ==> e.cash >= 0.0)
    && (ledger != [] ==>
          && ledger[|ledger| - 1].side == Sell
          && ledger[|ledger| - 1].cash == FlooredCapital(config) + RealisedPnl(trades)
          && ledger[|ledger| - 1].equity == FlooredCapital(config) + RealisedPnl(trades))
  }

  /** The execution proper, on a candidate table whose trades exit after
      they enter at positive prices. */
  method ExecuteCandidates(cands: seq<Candidate>, config: TradeBuilderConfig)
    returns (trades: seq<Trade>, ledger: seq<LedgerEntry>)
    requires forall c :: c in cands ==> c.enterDate < c.exitDate && c.exitPrice > 0.0
    ensures Settled(config, cands, trades, ledger)
  {
    if cands == [] {
      return [], [];
    }
    var fee := config.feeModel;
    var initialCapital := if config.initialCapital > 1.0 then config.initialCapital else 1.0;
    var peak := MaxActivePositions(cands);
    var maxActive := if peak > 1 then peak else 1;
    var s := Sizing(fee, initialCapital, maxActive, config.compound);
    assert s == SizingFor(config, cands);
    var events := CandidateEvents(cands);
    trades, ledger := ReplayEvents(s, cands, events);
    SettlementFor(config, cands, trades, ledger);
  }

  /** `Settlement` for the sizing the engine derives from its configuration. */
  lemma SettlementFor(config: TradeBuilderConfig, cands: seq<Candidate>, trades: seq<Trade>, ledger: seq<LedgerEntry>)
    requires cands != []
    requires forall c :: c in cands ==> c.enterDate < c.exitDate && c.exitPrice > 0.0
    requires trades == Replay(SizingFor(config, cands), cands, SortedTradeEvents(cands)).realised
    requires ledger == Replay(SizingFor(config, cands), cands, SortedTradeEvents(cands)).ledger
    ensures Settled(config, cands, trades, ledger)
  {
    var s := SizingFor(config, cands);
    assert config.feeModel.Rate() <= 1.0 ==> CashSafe(s, cands);
    Settlement(s, cands);
  }

  /** Each candidate's entry and exit, sorted by day with exits first. */
  method CandidateEvents(cands: seq<Candidate>) returns (events: seq<TradeEvent>)
    ensures events == SortedTradeEvents(cands)
  {
    events := [];
    for i := 0 to |cands|
      invariant events == TradeEvents(cands[..i])
    {
      assert cands[..i + 1][..i] == cands[..i];
      events := events + [TradeEvent(cands[i].enterDate, Entry, i), TradeEvent(cands[i].exitDate, Exit, i)];
    }
    assert cands[..|cands|] == cands;
    events := Sorting.InsertionSort(events, EventLe);
  }

  /** The engine's event loop: one pass over the sorted events, opening and
      closing positions. */
  method ReplayEvents(s: Sizing, cands: seq<Candidate>, events: seq<TradeEvent>)
    returns (trades: seq<Trade>, ledger: seq<LedgerEntry>)
    requires s.maxActive >= 1 && IndicesBelow(events, |cands|)
    ensures trades == Replay(s, cands, events).realised
    ensures ledger == Replay(s, cands, events).ledger
  {
    var open: map<nat, Position> := map[];
    ledger := [];
    trades := [];
    var cash := s.initialCapital;
    for m := 0 to |events|
      invariant Book(cash, open, ledger, trades) == Replay(s, cands, events[..m])
    {
      assert events[..m + 1][..m] == events[..m];
      var ev := events[m];
      if ev.kind == Entry {
        cash, open, ledger := ExecuteEntry(s, cands, cash, open, ledger, trades, ev);
      } else {
        cash, open, ledger, trades := ExecuteExit(s, cands, cash, open, ledger, trades, ev);
      }
    }
    assert events[..|events|] == events;
  }

  /** One entry event: buys the candidate's position if a slot, capital and a
      positive quantity are available and the cost fits in the cash. */
  method ExecuteEntry(s: Sizing, cands: seq<Candidate>, cash: real, open: map<nat, Position>,
                      ledger: seq<LedgerEntry>, trades: seq<Trade>, ev: TradeEvent)
    returns (cash': real, open': map<nat, Position>, ledger': seq<LedgerEntry>)
    requires s.maxActive >= 1 && ev.idx < |cands| && ev.kind == Entry
    ensures Book(cash', open', ledger', trades) == Step(s, cands, Book(cash, open, ledger, trades), ev)
  {
    cash', open', ledger' := cash, open, ledger;
    var row := cands[ev.idx];
    var availableSlots := s.maxActive - |open|;
    if availableSlots <= 0 {
      return;
    }
    var allocation := Allocation(s, cash, |open|);
    if allocation <= 0.0 {
      return;
    }
    var quantity := Quantity(s.fee, row.enterPrice, allocation);
    if quantity <= 0.0 {
      return;
    }
    var position := Purchase(s.fee, row.enterPrice, quantity, allocation);
    var totalCost := position.buyNotional + position.buyFee;
    if totalCost - cash > CashTolerance {
      return;
    }
    cash' := cash - totalCost;
    open' := open[ev.idx := position];
    var equity := CurrentEquity(cash', open', |cands|);
    ledger' := ledger + [LedgerEntry(ev.ts, Buy, row.symbol, quantity, row.enterPrice, position.buyNotional,
                                     position.buyFee, 0.0, cash', equity)];
  }

  /** One exit event: sells the candidate's position if it is open, books the
      sale in the ledger and records the realised trade. */
  method ExecuteExit(s: Sizing, cands: seq<Candidate>, cash: real, open: map<nat, Position>,
                     ledger: seq<LedgerEntry>, trades: seq<Trade>, ev: TradeEvent)
    returns (cash': real, open': map<nat, Position>, ledger': seq<LedgerEntry>, trades': seq<Trade>)
    requires s.maxActive >= 1 && ev.idx < |cands| && ev.kind == Exit
    ensures Book(cash', open', ledger', trades') == Step(s, cands, Book(cash, open, ledger, trades), ev)
  {
    cash', open', ledger', trades' := cash, open, ledger, trades;
    ghost var b := Book(cash, open, ledger, trades);
    assert Step(s, cands, b, ev) == Leave(s, cands, b, ev);
    if ev.idx !in open {
      return;
    }
    var row := cands[ev.idx];
    var position := open[ev.idx];
    open' := open - {ev.idx};
    var quantity := position.quantity;
    var buyNotional := position.buyNotional;
    var buyFee := position.buyFee;
    var sellNotional := row.exitPrice * quantity;
    var sellFee := s.fee.FeeForNotional(sellNotional);
    cash' := cash + (sellNotional - sellFee);
    var grossPnl := sellNotional - buyNotional;
    var totalFees := buyFee + sellFee;
    var netPnl := grossPnl - totalFees;
    var netReturn := if buyNotional != 0.0 then netPnl / Abs(buyNotional) else 0.0;
    var equity := CurrentEquity(cash', open', |cands|);
    ledger' := ledger + [LedgerEntry(ev.ts, Sell, row.symbol, quantity, row.exitPrice, sellNotional, sellFee,
                                     netPnl, cash', equity)];
    trades' := trades + [Trade(row.enterDate, row.exitDate, row.symbol, "long", row.enterPrice, row.exitPrice,
                               quantity, buyNotional, sellNotional, buyFee, sellFee, grossPnl, netPnl,
                               row.grossReturn, netReturn, position.capitalAllocated, totalFees, buyNotional)];
    assert trades'[|trades'| - 1] == Realise(s.fee, row, position);
  }
}
