/**
 * The report serialiser: the trades table becomes a list of JSON-ready
 * records, one per row and in row order, with the dates written as
 * `YYYY-MM-DD` and the net figures published as `pnl` and `ret`.
 */
module Serializer {

  import opened Wrappers
  import Dates

  /** One row of the trades table.  `symbol` and `side` are read only when
      the table has those columns (see `TradeFrame`). */
  datatype TradeRow = TradeRow(
    enterDate: Dates.Date,
    exitDate: Dates.Date,
    enterPrice: real,
    exitPrice: real,
    netPnl: real,
    netReturn: real,
    symbol: string,
    grossPnl: real,
    fees: real,
    side: string,
    quantity: real,
    notional: real,
    buyFee: real,
    sellFee: real)

  /** The trades table: whether it has a `symbol` and a `side` column, and
      its rows. */
  datatype TradeFrame = TradeFrame(hasSymbol: bool, hasSide: bool, rows: seq<TradeRow>)

  /** The record sent to the frontend for one row. */
  datatype Record = Record(
    enterDate: string,
    exitDate: string,
    enterPrice: real,
    exitPrice: real,
    pnl: real,
    ret: real,
    symbol: Option<string>,
    grossPnl: real,
    fees: real,
    side: string,
    quantity: real,
    notional: real,
    buyFee: real,
    sellFee: real)

  /** Both dates of a row are timestamps pandas can hold. */
  predicate Dated(row: TradeRow)
  {
    Dates.Stamp(row.enterDate) && Dates.Stamp(row.exitDate)
  }

  predicate AllDated(rows: seq<TradeRow>)
  {
    forall i :: 0 <= i < |rows| ==> Dated(rows[i])
  }

  /** The record of one row of `frame`. */
  function RecordOf(frame: TradeFrame, row: TradeRow): Record
    requires Dated(row)
  {
    Record(
      Dates.Format(row.enterDate),
      Dates.Format(row.exitDate),
      row.enterPrice,
      row.exitPrice,
      row.netPnl,
      row.netReturn,
      if frame.hasSymbol then Some(row.symbol) else None,
      row.grossPnl,
      row.fees,
      if frame.hasSide then row.side else "long",
      row.quantity,
      row.notional,
      row.buyFee,
      row.sellFee)
  }

  /** `serialise_trades`: no table, or an empty one, gives no records;
      otherwise record `j` is the record of row `j`. */
  method SerialiseTrades(trades: Option<TradeFrame>) returns (payload: seq<Record>)
    requires trades.Some? ==> AllDated(trades.value.rows)
    ensures trades.None? ==> payload == []
    ensures trades.Some? ==> |payload| == |trades.value.rows|
    ensures trades.Some? ==> forall j :: 0 <= j < |payload| ==>
      payload[j] == RecordOf(trades.value, trades.value.rows[j])
  {
    if trades.None? || |trades.value.rows| == 0 {
      return [];
    }
    var frame := trades.value;
    payload := [];
    for i := 0 to |frame.rows|
      invariant |payload| == i
      invariant forall j :: 0 <= j < i ==> payload[j] == RecordOf(frame, frame.rows[j])
    {
      var row := frame.rows[i];
      payload := payload + [RecordOf(frame, row)];
    }
  }

  /** What a record says about its row: the net figures are published as
      `pnl` and `ret`, the dates read back as the row's dates, and a missing
      `symbol` column gives no symbol and a missing `side` column the side
      "long". */
  lemma RecordOfSpec(frame: TradeFrame, row: TradeRow)
    requires Dated(row)
    ensures var r := RecordOf(frame, row);
      && r.pnl == row.netPnl && r.ret == row.netReturn
      && Dates.Parse(r.enterDate) == Some(row.enterDate)
      && Dates.Parse(r.exitDate) == Some(row.exitDate)
      && (r.symbol.Some? <==> frame.hasSymbol)
      && (frame.hasSymbol ==> r.symbol == Some(row.symbol))
      && (r.side == if frame.hasSide then row.side else "long")
  {
    Dates.ParseFormat(row.enterDate);
    Dates.ParseFormat(row.exitDate);
  }

  /** Reads a record back into a row, as a client of the report would. */
  function RowOf(r: Record): Option<TradeRow>
  {
    match (Dates.Parse(r.enterDate), Dates.Parse(r.exitDate), r.symbol)
    case (Some(enter), Some(exit), Some(symbol)) =>
      Some(TradeRow(enter, exit, r.enterPrice, r.exitPrice, r.pnl, r.ret, symbol,
                    r.grossPnl, r.fees, r.side, r.quantity, r.notional, r.buyFee, r.sellFee))
    case _ => None
  }

  /** When the table has both optional columns the record loses nothing: the
      row reads back from it. */
  lemma RecordRoundTrip(frame: TradeFrame, row: TradeRow)
    requires Dated(row) && frame.hasSymbol && frame.hasSide
    ensures RowOf(RecordOf(frame, row)) == Some(row)
  {
    RecordOfSpec(frame, row);
  }
}
