/**
 * The request-mapping layer of the HTTP adapter (backend/api_server.py):
 * validation of the request's filter and RSI-rule objects, the universe
 * filter, the translation of the request's indicator options into the
 * engine's flat configuration, and the per-pick trades of the response.
 */
module Api {

  import opened Wrappers
  import opened Text
  import opened Values
  import opened BacktestSystem
  import Sorting
  import Dates

  // ---------------------------------------------------------------------
  // Request validation

  /**
   * `Filters._normalise`: each excluded ticker is stripped and upper-cased,
   * blank entries are dropped, and a list left empty becomes `None`.
   */
  function Cleaned(v: seq<string>): (r: seq<string>)
    ensures |r| <= |v|
  {
    if v == [] then []
    else
      var s := Strip(v[0]);
      (if s != [] then [Upper(s)] else []) + Cleaned(v[1..])
  }

  /** A clean ticker: non-blank, without surrounding whitespace, upper case. */
  predicate Clean(x: string)
  {
    x != [] && Strip(x) == x && IsUpper(x)
  }

  lemma CleanToken(t: string)
    ensures Strip(t) != [] ==> Clean(Upper(Strip(t)))
  {
    var s := Strip(t);
    StripUpper(s);
    StripIdempotent(t);
    UpperIsUpper(s);
  }

  /** The cleaned list holds the stripped, upper-cased form of each non-blank entry, and only those. */
  lemma {:induction false} CleanedSpec(v: seq<string>)
    ensures forall x :: x in Cleaned(v) <==> exists t :: t in v && Strip(t) != [] && x == Upper(Strip(t))
    ensures forall x :: x in Cleaned(v) ==> Clean(x)
  {
    if v != [] {
      CleanedSpec(v[1..]);
      CleanToken(v[0]);
      assert forall t :: t in v <==> t == v[0] || t in v[1..];
    }
  }

  function NormaliseExcludes(v: Option<seq<string>>): (r: Option<seq<string>>)
    ensures v.None? ==> r.None?
    ensures r.Some? ==> v.Some? && r.value != [] && r.value == Cleaned(v.value)
    ensures v.Some? && r.None? ==> forall t :: t in v.value ==> Strip(t) == []
  {
    if v.None? then None
    else
      var cleaned := Cleaned(v.value);
      CleanedSpec(v.value);
      assert forall t :: t in v.value && Strip(t) != [] ==> Upper(Strip(t)) in cleaned;
      if cleaned == [] then None else Some(cleaned)
  }

  /** A list that is already clean is its own cleaning. */
  lemma {:induction false} CleanedOfClean(v: seq<string>)
    requires forall x :: x in v ==> Clean(x)
    ensures Cleaned(v) == v
  {
    if v != [] {
      assert v[0] in v;
      CleanedOfClean(v[1..]);
      UpperOfUpper(v[0]);
      assert v == [v[0]] + v[1..];
    }
  }

  /** Validating twice changes nothing: pydantic may run the validator on its own output. */
  lemma NormaliseIdempotent(v: Option<seq<string>>)
    ensures NormaliseExcludes(NormaliseExcludes(v)) == NormaliseExcludes(v)
  {
    var r := NormaliseExcludes(v);
    if r.Some? {
      CleanedSpec(v.value);
      CleanedOfClean(r.value);
    }
  }

  datatype ValidationError = ThresholdOutOfRange | UnknownMode | NegativeMarketCap

  datatype RsiMode = Oversold | Overbought

  /** A validated `RSIRule`. */
  datatype RsiRuleRequest = RsiRuleRequest(mode: RsiMode, threshold: int)

  /**
   * Constructing an `RSIRule`: the mode is "oversold" (the default) or
   * "overbought", and the threshold (default 30) lies in [0, 100].
   */
  function MakeRsiRule(mode: Option<string>, threshold: Option<int>): (r: Result<RsiRuleRequest, ValidationError>)
    ensures r.Success? <==>
      (mode.None? || mode.value == "oversold" || mode.value == "overbought")
      && 0 <= threshold.GetOr(30) <= 100
    ensures r.Success? ==> 0 <= r.value.threshold <= 100 && r.value.threshold == threshold.GetOr(30)
    ensures r.Success? ==> (r.value.mode == Overbought <==> mode == Some("overbought"))
  {
    var m := mode.GetOr("oversold");
    var t := threshold.GetOr(30);
    if m != "oversold" && m != "overbought" then Failure(UnknownMode)
    else if t < 0 || t > 100 then Failure(ThresholdOutOfRange)
    else Success(RsiRuleRequest(if m == "oversold" then Oversold else Overbought, t))
  }

  /** A validated `Filters` object. */
  datatype Filters = Filters(
    sectors: Option<seq<string>>,
    mcapMin: Option<real>,
    mcapMax: Option<real>,
    excludeTickers: Option<seq<string>>)

  /**
   * Constructing a `Filters`: both market-cap bounds are non-negative when
   * given, and the excluded tickers pass through `_normalise`.
   */
  function MakeFilters(sectors: Option<seq<string>>, mcapMin: Option<real>, mcapMax: Option<real>,
                       excludeTickers: Option<seq<string>>): (r: Result<Filters, ValidationError>)
    ensures r.Success? <==> (mcapMin.None? || mcapMin.value >= 0.0) && (mcapMax.None? || mcapMax.value >= 0.0)
    ensures r.Success? ==> r.value.excludeTickers == NormaliseExcludes(excludeTickers)
    ensures r.Success? ==> r.value.sectors == sectors && r.value.mcapMin == mcapMin && r.value.mcapMax == mcapMax
  {
    if (mcapMin.Some? && mcapMin.value < 0.0) || (mcapMax.Some? && mcapMax.value < 0.0) then
      Failure(NegativeMarketCap)
    else
      Success(Filters(sectors, mcapMin, mcapMax, NormaliseExcludes(excludeTickers)))
  }

  // ---------------------------------------------------------------------
  // Universe

  /** A row of the metadata table; `None` stands for a missing cell. */
  datatype MetaRow = MetaRow(ticker: string, sector: Option<string>, marketCap: Option<real>)

  /** The metadata table and which of the optional columns it has. */
  datatype Universe = Universe(rows: seq<MetaRow>, hasSector: bool, hasMarketCap: bool)

  datatype HttpError = HttpError(status: int, detail: string)

  /** The tickers of `rows`. */
  function TickersOf(rows: seq<MetaRow>): (r: seq<string>)
    ensures |r| == |rows| && forall i :: 0 <= i < |rows| ==> r[i] == rows[i].ticker
  {
    seq(|rows|, i requires 0 <= i < |rows| => rows[i].ticker)
  }

  /** The first row of `rows` with ticker `t`. */
  function FirstWith(rows: seq<MetaRow>, t: string): Option<MetaRow>
  {
    if rows == [] then None
    else if rows[0].ticker == t then Some(rows[0])
    else FirstWith(rows[1..], t)
  }

  /** `drop_duplicates(subset="ticker")`: a row is kept when no earlier row
      (nor a ticker in `seen`) has its ticker. */
  function Dedupe(rows: seq<MetaRow>, seen: set<string>): (r: seq<MetaRow>)
    ensures |r| <= |rows|
  {
    if rows == [] then []
    else if rows[0].ticker in seen then Dedupe(rows[1..], seen)
    else [rows[0]] + Dedupe(rows[1..], seen + {rows[0].ticker})
  }

  /** Deduplication leaves each ticker at most once. */
  lemma {:induction false} DedupeDistinct(rows: seq<MetaRow>, seen: set<string>)
    ensures Sorting.Distinct(TickersOf(Dedupe(rows, seen)))
    ensures forall x :: x in Dedupe(rows, seen) ==> x.ticker !in seen
  {
    if rows != [] {
      var t := rows[0].ticker;
      if t in seen {
        DedupeDistinct(rows[1..], seen);
      } else {
        var rest := Dedupe(rows[1..], seen + {t});
        DedupeDistinct(rows[1..], seen + {t});
        forall i | 0 <= i < |rest| ensures TickersOf(rest)[i] != t {
          assert rest[i] in rest;
        }
        DistinctCons(t, TickersOf(rest));
        assert TickersOf([rows[0]] + rest) == [t] + TickersOf(rest);
      }
    }
  }

  lemma DistinctCons(t: string, s: seq<string>)
    requires Sorting.Distinct(s) && forall i :: 0 <= i < |s| ==> s[i] != t
    ensures Sorting.Distinct([t] + s)
  {
  }

  /** Every row deduplication keeps is the first row of its ticker. */
  lemma {:induction false} DedupeSound(rows: seq<MetaRow>, seen: set<string>)
    ensures forall x :: x in Dedupe(rows, seen) ==> x in rows && x.ticker !in seen && FirstWith(rows, x.ticker) == Some(x)
  {
    if rows != [] {
      var t := rows[0].ticker;
      if t in seen {
        DedupeSound(rows[1..], seen);
      } else {
        DedupeSound(rows[1..], seen + {t});
      }
    }
  }

  /** Deduplication keeps a row for every ticker not already seen. */
  lemma {:induction false} DedupeComplete(rows: seq<MetaRow>, seen: set<string>)
    ensures forall x :: x in rows && x.ticker !in seen ==> x.ticker in TickersOf(Dedupe(rows, seen))
  {
    if rows != [] {
      var t := rows[0].ticker;
      assert forall x :: x in rows ==> x == rows[0] || x in rows[1..];
      if t in seen {
        DedupeComplete(rows[1..], seen);
      } else {
        var rest := Dedupe(rows[1..], seen + {t});
        DedupeComplete(rows[1..], seen + {t});
        var r := [rows[0]] + rest;
        forall x | x in rows && x.ticker !in seen ensures x.ticker in TickersOf(r) {
          if x.ticker == t {
            assert TickersOf(r)[0] == t;
          } else {
            assert x in rows[1..];
            var i :| 0 <= i < |rest| && TickersOf(rest)[i] == x.ticker;
            assert TickersOf(r)[i + 1] == x.ticker;
          }
        }
      }
    }
  }

  function DedupeFirst(rows: seq<MetaRow>): seq<MetaRow>
  {
    Dedupe(rows, {})
  }

  predicate SectorOk(u: Universe, f: Filters, row: MetaRow)
  {
    f.sectors.Some? && f.sectors.value != [] && u.hasSector ==> row.sector.Some? && row.sector.value in f.sectors.value
  }

  predicate MinCapOk(u: Universe, f: Filters, row: MetaRow)
  {
    f.mcapMin.Some? && u.hasMarketCap ==> row.marketCap.Some? && row.marketCap.value >= f.mcapMin.value
  }

  predicate MaxCapOk(u: Universe, f: Filters, row: MetaRow)
  {
    f.mcapMax.Some? && u.hasMarketCap ==> row.marketCap.Some? && row.marketCap.value <= f.mcapMax.value
  }

  predicate NotExcluded(f: Filters, row: MetaRow)
  {
    f.excludeTickers.Some? && f.excludeTickers.value != [] ==> row.ticker !in f.excludeTickers.value
  }

  /** The explicit universe, upper-cased. */
  function UpperAll(explicit: seq<string>): (r: seq<string>)
    ensures |r| == |explicit| && forall i :: 0 <= i < |r| ==> r[i] == Upper(explicit[i])
  {
    seq(|explicit|, i requires 0 <= i < |explicit| => Upper(explicit[i]))
  }

  predicate InExplicit(explicit: Option<seq<string>>, row: MetaRow)
  {
    explicit.Some? && explicit.value != [] ==> row.ticker in UpperAll(explicit.value)
  }

  /** Whether a row survives every filter of `_build_universe`. */
  predicate Selected(u: Universe, filters: Option<Filters>, explicit: Option<seq<string>>, row: MetaRow)
  {
    && (filters.Some? ==> SectorOk(u, filters.value, row) && MinCapOk(u, filters.value, row)
                          && MaxCapOk(u, filters.value, row) && NotExcluded(filters.value, row))
    && InExplicit(explicit, row)
  }

  /** The rows passing every filter, in table order. */
  function SelectedRows(u: Universe, filters: Option<Filters>, explicit: Option<seq<string>>): (r: seq<MetaRow>)
    ensures forall x :: x in r <==> x in u.rows && Selected(u, filters, explicit, x)
  {
    Sorting.Filter(u.rows, row => Selected(u, filters, explicit, row))
  }

  /** The sector, market-cap, exclusion and explicit-list filters of
      `_build_universe` in turn; a filter on a column the table lacks is
      skipped. */
  function Filtered(u: Universe, filters: Option<Filters>, explicit: Option<seq<string>>): (r: seq<MetaRow>)
    ensures |r| <= |u.rows|
  {
    var rows := u.rows;
    var rows := if filters.Some? then Sorting.Filter(rows, row => SectorOk(u, filters.value, row)) else rows;
    var rows := if filters.Some? then Sorting.Filter(rows, row => MinCapOk(u, filters.value, row)) else rows;
    var rows := if filters.Some? then Sorting.Filter(rows, row => MaxCapOk(u, filters.value, row)) else rows;
    var rows := if filters.Some? then Sorting.Filter(rows, row => NotExcluded(filters.value, row)) else rows;
    Sorting.Filter(rows, row => InExplicit(explicit, row))
  }

  /**
   * `_build_universe` after the metadata is loaded: the filters, a 400 error
   * when nothing is left, and one row per ticker.
   */
  function BuildUniverse(u: Universe, filters: Option<Filters>, explicit: Option<seq<string>>): (r: Result<seq<MetaRow>, HttpError>)
  {
    var rows := Filtered(u, filters, explicit);
    if rows == [] then Failure(HttpError(400, "Universe filter removed all tickers."))
    else Success(DedupeFirst(rows))
  }

  /** The filter chain of `_build_universe` selects exactly `SelectedRows`. */
  lemma FilteredSelects(u: Universe, filters: Option<Filters>, explicit: Option<seq<string>>)
    ensures Filtered(u, filters, explicit) == SelectedRows(u, filters, explicit)
  {
    var rows := u.rows;
    if filters.Some? {
      var f := filters.value;
      var p1 := row => SectorOk(u, f, row);
      var p2 := row => MinCapOk(u, f, row);
      var p3 := row => MaxCapOk(u, f, row);
      var p4 := row => NotExcluded(f, row);
      var p5 := row => InExplicit(explicit, row);
      var p12 := row => p1(row) && p2(row);
      var p123 := row => p12(row) && p3(row);
      var p1234 := row => p123(row) && p4(row);
      Sorting.FilterFilter(rows, p1, p2, p12);
      Sorting.FilterFilter(rows, p12, p3, p123);
      Sorting.FilterFilter(rows, p123, p4, p1234);
      Sorting.FilterFilter(rows, p1234, p5, row => Selected(u, filters, explicit, row));
      assert Filtered(u, filters, explicit) == Sorting.Filter(Sorting.Filter(Sorting.Filter(Sorting.Filter(Sorting.Filter(rows, p1), p2), p3), p4), p5);
    } else {
      Sorting.FilterExt(rows, row => InExplicit(explicit, row), row => Selected(u, filters, explicit, row));
    }
  }

  /**
   * The universe is the set of rows passing every filter, one row per
   * ticker, each the first such row of its ticker; it is an HTTP 400 error
   * exactly when no row passes.
   */
  lemma BuildUniverseSpec(u: Universe, filters: Option<Filters>, explicit: Option<seq<string>>)
    ensures var r := BuildUniverse(u, filters, explicit);
      && (r.Failure? <==> forall row :: row in u.rows ==> !Selected(u, filters, explicit, row))
      && (r.Failure? ==> r.error.status == 400)
      && (r.Success? ==> Sorting.Distinct(TickersOf(r.value)))
      && (r.Success? ==> forall x :: x in r.value ==> x in u.rows && Selected(u, filters, explicit, x))
      && (r.Success? ==> forall x :: x in u.rows && Selected(u, filters, explicit, x) ==> x.ticker in TickersOf(r.value))
      && (r.Success? ==> forall x :: x in r.value ==> FirstWith(SelectedRows(u, filters, explicit), x.ticker) == Some(x))
  {
    var sel := SelectedRows(u, filters, explicit);
    FilteredSelects(u, filters, explicit);
    DedupeDistinct(sel, {});
    DedupeSound(sel, {});
    DedupeComplete(sel, {});
    if sel != [] {
      assert sel[0] in sel;
    }
  }


  // ---------------------------------------------------------------------
  // _map_indicators

  /** The request's `indicators` object. */
  type Indicators = map<string, Value>

  datatype MappingError = NotAMapping(key: string)

  /** The option key an RSI rule's threshold is written to. */
  function ThresholdKey(mode: RsiMode): string
  {
    if mode == Oversold then "oversold" else "overbought"
  }

  /**
   * `_map_indicators`: without an RSI rule the indicators are returned
   * unchanged.  With one, the "rsi" block is created if absent and gets
   * `use = True`, `n` (kept, else 14), `rule` set to the mode, and the
   * threshold under the mode's key; every other option and every other
   * indicator is kept.  An "rsi" entry that is not a dictionary raises.
   */
  method MapIndicators(indicators: Indicators, rule: Option<RsiRuleRequest>) returns (r: Result<Indicators, MappingError>)
    ensures rule.None? ==> r == Success(indicators)
    ensures r.Failure? <==> rule.Some? && "rsi" in indicators && indicators["rsi"].Leaf?
    ensures r.Success? && rule.Some? ==>
      var before := if "rsi" in indicators then indicators["rsi"].entries else map[];
      var key := ThresholdKey(rule.value.mode);
      && r.value.Keys == indicators.Keys + {"rsi"}
      && (forall k :: k in indicators && k != "rsi" ==> r.value[k] == indicators[k])
      && r.value["rsi"].Dict?
      && r.value["rsi"].entries.Keys == before.Keys + {"use", "n", "rule", key}
      && r.value["rsi"].entries["use"] == BoolV(true)
      && r.value["rsi"].entries["n"] == (if "n" in before then before["n"] else IntV(14))
      && r.value["rsi"].entries["rule"] == StrV(key)
      && r.value["rsi"].entries[key] == IntV(rule.value.threshold)
      && (forall o :: o in before && o !in {"use", "n", "rule", key} ==> r.value["rsi"].entries[o] == before[o])
  {
    var result := indicators;
    if rule.Some? {
      if "rsi" !in result {
        result := result["rsi" := Dict(map[])];
      }
      match result["rsi"]
      case Leaf(_) =>
        return Failure(NotAMapping("rsi"));
      case Dict(opts) =>
        var n := if "n" in opts then opts["n"] else IntV(14);
        opts := opts["use" := BoolV(true)]["n" := n];
        if rule.value.mode == Oversold {
          opts := opts["rule" := StrV("oversold")];
          opts := opts["oversold" := IntV(rule.value.threshold)];
        } else {
          opts := opts["rule" := StrV("overbought")];
          opts := opts["overbought" := IntV(rule.value.threshold)];
        }
        result := result["rsi" := Dict(opts)];
    }
    r := Success(result);
  }

  // ---------------------------------------------------------------------
  // _build_config

  /** The engine configuration `_build_config` returns, keyed by attribute. */
  type EngineConfig = map<Field, Value>

  /** The request key of the block that configures an indicator. */
  function BlockKey(k: Kind): string
  {
    match k
    case RSI => "rsi"
    case ADX => "adx"
    case Aroon => "aroon"
    case Stochastic => "stoch"
    case MACD => "macd"
    case OBV => "obv"
    case EMA => "ema"
  }

  /** The indicator whose block sets a configuration attribute; `None` for
      the top-level `policy` and `atleast_k`. */
  function Owner(f: Field): Option<Kind>
  {
    match f
    case Use(k) => Some(k)
    case RsiOpt(_) => Some(RSI)
    case AdxOpt(_) => Some(ADX)
    case AroonOpt(_) => Some(Aroon)
    case StochOpt(_) => Some(Stochastic)
    case MacdOpt(_) => Some(MACD)
    case ObvOpt(_) => Some(OBV)
    case EmaOpt(_) => Some(EMA)
    case Policy | AtleastK => None
  }

  /** The option key in the indicator's block (or the top-level key) that sets an attribute. */
  function OptionKey(f: Field): string
  {
    match f
    case Use(_) => "use"
    case RsiOpt(RsiN) | AdxOpt(AdxN) | AroonOpt(AroonN) => "n"
    case RsiOpt(RsiOversold) => "oversold"
    case RsiOpt(RsiOverbought) => "overbought"
    case RsiOpt(RsiRule) | StochOpt(StochRule) | MacdOpt(MacdRule) | ObvOpt(ObvRule) => "rule"
    case AdxOpt(AdxMin) => "min"
    case AroonOpt(AroonUp) => "up"
    case AroonOpt(AroonDn) => "down"
    case StochOpt(StochK) => "k"
    case StochOpt(StochD) => "d"
    case StochOpt(StochThresh) => "threshold"
    case MacdOpt(MacdFast) => "fast"
    case MacdOpt(MacdSlow) => "slow"
    case MacdOpt(MacdSignal) => "signal"
    case EmaOpt(EmaShort) => "short"
    case EmaOpt(EmaLong) => "long"
    case Policy => "policy"
    case AtleastK => "atleast_k"
  }

  /** Python's `opts.get(key, default)`. */
  function Get(opts: map<string, Scalar>, key: string, default: Value): Value
  {
    if key in opts then Leaf(opts[key]) else default
  }

  /** The value a block gives `f`, which held `current`: its option if
      supplied; otherwise `True` for the `use` flag and `current` for the rest. */
  function Setting(opts: map<string, Scalar>, f: Field, current: Value): Value
  {
    Get(opts, OptionKey(f), if f.Use? then Leaf(BoolV(true)) else current)
  }

  /** One assignment `cfg[f] = opts.get(key, ...)` of a block. */
  function Step(cfg: EngineConfig, opts: map<string, Scalar>, f: Field): (r: EngineConfig)
    requires forall g :: g in cfg
    ensures forall g :: g in r
  {
    cfg[f := Setting(opts, f, cfg[f])]
  }

  /**
   * The value `_build_config` gives an attribute, read off the request
   * directly: an attribute of an indicator whose block is absent keeps its
   * default (so its `use_*` flag is false); in a present block the flag
   * defaults to true and every other attribute is overridden exactly when its
   * option is supplied; `policy` and `atleast_k` come from the top level,
   * defaulting to "any" and 2.
   */
  function Expected(indicators: Indicators, f: Field): Value
  {
    match Owner(f)
    case None =>
      if OptionKey(f) in indicators then indicators[OptionKey(f)] else Default(f)
    case Some(k) =>
      if BlockKey(k) in indicators && indicators[BlockKey(k)].Dict?
      then Setting(indicators[BlockKey(k)].entries, f, Default(f))
      else Default(f)
  }

  lemma ExpectedDefaults(indicators: Indicators)
    ensures forall k :: BlockKey(k) !in indicators ==> Expected(indicators, Use(k)) == Leaf(BoolV(false))
    ensures "policy" !in indicators ==> Expected(indicators, Policy) == Leaf(StrV("any"))
    ensures "atleast_k" !in indicators ==> Expected(indicators, AtleastK) == Leaf(IntV(2))
  {
    forall k | BlockKey(k) !in indicators ensures Expected(indicators, Use(k)) == Leaf(BoolV(false)) {
      match k
      case RSI =>
      case ADX =>
      case Aroon =>
      case Stochastic =>
      case MACD =>
      case OBV =>
      case EMA =>
    }
  }

  /** The attributes an indicator's block sets, in the order it sets them. */
  function FieldsOf(k: Kind): seq<Field>
  {
    match k
    case RSI => [Use(RSI), RsiOpt(RsiN), RsiOpt(RsiRule), RsiOpt(RsiOversold), RsiOpt(RsiOverbought)]
    case Stochastic => [Use(Stochastic), StochOpt(StochK), StochOpt(StochD), StochOpt(StochRule), StochOpt(StochThresh)]
    case ADX => [Use(ADX), AdxOpt(AdxN), AdxOpt(AdxMin)]
    case Aroon => [Use(Aroon), AroonOpt(AroonN), AroonOpt(AroonUp), AroonOpt(AroonDn)]
    case MACD => [Use(MACD), MacdOpt(MacdFast), MacdOpt(MacdSlow), MacdOpt(MacdSignal), MacdOpt(MacdRule)]
    case OBV => [Use(OBV), ObvOpt(ObvRule)]
    case EMA => [Use(EMA), EmaOpt(EmaShort), EmaOpt(EmaLong)]
  }

  /** A block sets only its own indicator's attributes. */
  lemma FieldsOfOwned(k: Kind)
    ensures forall i :: 0 <= i < |FieldsOf(k)| ==> Owner(FieldsOf(k)[i]) == Some(k)
  {
    match k
    case RSI =>
    case Stochastic =>
    case ADX =>
    case Aroon =>
    case MACD =>
    case OBV =>
    case EMA =>
  }

  /** A block sets every attribute of its indicator. */
  lemma FieldsOfComplete(f: Field)
    requires Owner(f).Some?
    ensures f in FieldsOf(Owner(f).value)
  {
    match f
    case Use(k) => assert FieldsOf(k)[0] == f;
    case RsiOpt(p) =>
      match p {
      case RsiN => assert FieldsOf(RSI)[1] == f;
      case RsiRule => assert FieldsOf(RSI)[2] == f;
      case RsiOversold => assert FieldsOf(RSI)[3] == f;
      case RsiOverbought => assert FieldsOf(RSI)[4] == f;
      }
    case StochOpt(p) =>
      match p {
      case StochK => assert FieldsOf(Stochastic)[1] == f;
      case StochD => assert FieldsOf(Stochastic)[2] == f;
      case StochRule => assert FieldsOf(Stochastic)[3] == f;
      case StochThresh => assert FieldsOf(Stochastic)[4] == f;
      }
    case AdxOpt(p) =>
      match p {
      case AdxN => assert FieldsOf(ADX)[1] == f;
      case AdxMin => assert FieldsOf(ADX)[2] == f;
      }
    case AroonOpt(p) =>
      match p {
      case AroonN => assert FieldsOf(Aroon)[1] == f;
      case AroonUp => assert FieldsOf(Aroon)[2] == f;
      case AroonDn => assert FieldsOf(Aroon)[3] == f;
      }
    case MacdOpt(p) =>
      match p {
      case MacdFast => assert FieldsOf(MACD)[1] == f;
      case MacdSlow => assert FieldsOf(MACD)[2] == f;
      case MacdSignal => assert FieldsOf(MACD)[3] == f;
      case MacdRule => assert FieldsOf(MACD)[4] == f;
      }
    case ObvOpt(_) => assert FieldsOf(OBV)[1] == f;
    case EmaOpt(p) =>
      match p {
      case EmaShort => assert FieldsOf(EMA)[1] == f;
      case EmaLong => assert FieldsOf(EMA)[2] == f;
      }
  }

  lemma FieldsOfOwner(k: Kind, f: Field)
    ensures f in FieldsOf(k) <==> Owner(f) == Some(k)
  {
    FieldsOfOwned(k);
    if Owner(f) == Some(k) {
      FieldsOfComplete(f);
    }
  }

  /**
   * The attributes `fs` overridden, one after another, from the options
   * `opts` of a block (`cfg[a] = opts.get(key, cfg[a])`, with a flag
   * defaulting to true).
   */
  function Overlay(cfg: EngineConfig, opts: map<string, Scalar>, fs: seq<Field>): (r: EngineConfig)
    requires forall f :: f in cfg
    ensures forall f :: f in r
    decreases |fs|
  {
    if fs == [] then cfg
    else Overlay(Step(cfg, opts, fs[0]), opts, fs[1..])
  }

  /** An overlay sets exactly the listed attributes, each from its option. */
  lemma {:induction false} OverlayAt(cfg: EngineConfig, opts: map<string, Scalar>, fs: seq<Field>, f: Field)
    requires forall g :: g in cfg
    ensures Overlay(cfg, opts, fs)[f] == if f in fs then Setting(opts, f, cfg[f]) else cfg[f]
    decreases |fs|
  {
    if fs != [] {
      OverlayAt(Step(cfg, opts, fs[0]), opts, fs[1..], f);
      assert f in fs <==> f == fs[0] || f in fs[1..];
    }
  }

  datatype ConfigError = BlockNotAMapping(key: string)

  /** The `if "rsi" in indicators:` block of `_build_config`. */
  method ApplyRsi(cfg: EngineConfig, opts: map<string, Scalar>) returns (after: EngineConfig)
    requires forall f :: f in cfg
    ensures after == Overlay(cfg, opts, FieldsOf(RSI))
  {
    after := cfg[Use(RSI) := Get(opts, "use", Leaf(BoolV(true)))];
    ghost var steps := Step(cfg, opts, Use(RSI));
    assert after == steps;
    after := after[RsiOpt(RsiN) := Get(opts, "n", after[RsiOpt(RsiN)])];
    steps := Step(steps, opts, RsiOpt(RsiN));
    assert after == steps;
    after := after[RsiOpt(RsiRule) := Get(opts, "rule", after[RsiOpt(RsiRule)])];
    steps := Step(steps, opts, RsiOpt(RsiRule));
    assert after == steps;
    after := after[RsiOpt(RsiOversold) := Get(opts, "oversold", after[RsiOpt(RsiOversold)])];
    steps := Step(steps, opts, RsiOpt(RsiOversold));
    assert after == steps;
    after := after[RsiOpt(RsiOverbought) := Get(opts, "overbought", after[RsiOpt(RsiOverbought)])];
    steps := Step(steps, opts, RsiOpt(RsiOverbought));
    assert after == steps;
  }

  /** The `if "stoch" in indicators:` block of `_build_config`. */
  method ApplyStoch(cfg: EngineConfig, opts: map<string, Scalar>) returns (after: EngineConfig)
    requires forall f :: f in cfg
    ensures after == Overlay(cfg, opts, FieldsOf(Stochastic))
  {
    after := cfg[Use(Stochastic) := Get(opts, "use", Leaf(BoolV(true)))];
    ghost var steps := Step(cfg, opts, Use(Stochastic));
    assert after == steps;
    after := after[StochOpt(StochK) := Get(opts, "k", after[StochOpt(StochK)])];
    steps := Step(steps, opts, StochOpt(StochK));
    assert after == steps;
    after := after[StochOpt(StochD) := Get(opts, "d", after[StochOpt(StochD)])];
    steps := Step(steps, opts, StochOpt(StochD));
    assert after == steps;
    after := after[StochOpt(StochRule) := Get(opts, "rule", after[StochOpt(StochRule)])];
    steps := Step(steps, opts, StochOpt(StochRule));
    assert after == steps;
    after := after[StochOpt(StochThresh) := Get(opts, "threshold", after[StochOpt(StochThresh)])];
    steps := Step(steps, opts, StochOpt(StochThresh));
    assert after == steps;
  }

  /** The `if "adx" in indicators:` block of `_build_config`. */
  method ApplyAdx(cfg: EngineConfig, opts: map<string, Scalar>) returns (after: EngineConfig)
    requires forall f :: f in cfg
    ensures after == Overlay(cfg, opts, FieldsOf(ADX))
  {
    after := cfg[Use(ADX) := Get(opts, "use", Leaf(BoolV(true)))];
    ghost var steps := Step(cfg, opts, Use(ADX));
    assert after == steps;
    after := after[AdxOpt(AdxN) := Get(opts, "n", after[AdxOpt(AdxN)])];
    steps := Step(steps, opts, AdxOpt(AdxN));
    assert after == steps;
    after := after[AdxOpt(AdxMin) := Get(opts, "min", after[AdxOpt(AdxMin)])];
    steps := Step(steps, opts, AdxOpt(AdxMin));
    assert after == steps;
  }

  /** The `if "aroon" in indicators:` block of `_build_config`. */
  method ApplyAroon(cfg: EngineConfig, opts: map<string, Scalar>) returns (after: EngineConfig)
    requires forall f :: f in cfg
    ensures after == Overlay(cfg, opts, FieldsOf(Aroon))
  {
    after := cfg[Use(Aroon) := Get(opts, "use", Leaf(BoolV(true)))];
    ghost var steps := Step(cfg, opts, Use(Aroon));
    assert after == steps;
    after := after[AroonOpt(AroonN) := Get(opts, "n", after[AroonOpt(AroonN)])];
    steps := Step(steps, opts, AroonOpt(AroonN));
    assert after == steps;
    after := after[AroonOpt(AroonUp) := Get(opts, "up", after[AroonOpt(AroonUp)])];
    steps := Step(steps, opts, AroonOpt(AroonUp));
    assert after == steps;
    after := after[AroonOpt(AroonDn) := Get(opts, "down", after[AroonOpt(AroonDn)])];
    steps := Step(steps, opts, AroonOpt(AroonDn));
    assert after == steps;
  }

  /** The `if "macd" in indicators:` block of `_build_config`. */
  method ApplyMacd(cfg: EngineConfig, opts: map<string, Scalar>) returns (after: EngineConfig)
    requires forall f :: f in cfg
    ensures after == Overlay(cfg, opts, FieldsOf(MACD))
  {
    after := cfg[Use(MACD) := Get(opts, "use", Leaf(BoolV(true)))];
    ghost var steps := Step(cfg, opts, Use(MACD));
    assert after == steps;
    after := after[MacdOpt(MacdFast) := Get(opts, "fast", after[MacdOpt(MacdFast)])];
    steps := Step(steps, opts, MacdOpt(MacdFast));
    assert after == steps;
    after := after[MacdOpt(MacdSlow) := Get(opts, "slow", after[MacdOpt(MacdSlow)])];
    steps := Step(steps, opts, MacdOpt(MacdSlow));
    assert after == steps;
    after := after[MacdOpt(MacdSignal) := Get(opts, "signal", after[MacdOpt(MacdSignal)])];
    steps := Step(steps, opts, MacdOpt(MacdSignal));
    assert after == steps;
    after := after[MacdOpt(MacdRule) := Get(opts, "rule", after[MacdOpt(MacdRule)])];
    steps := Step(steps, opts, MacdOpt(MacdRule));
    assert after == steps;
  }

  /** The `if "obv" in indicators:` block of `_build_config`. */
  method ApplyObv(cfg: EngineConfig, opts: map<string, Scalar>) returns (after: EngineConfig)
    requires forall f :: f in cfg
    ensures after == Overlay(cfg, opts, FieldsOf(OBV))
  {
    after := cfg[Use(OBV) := Get(opts, "use", Leaf(BoolV(true)))];
    ghost var steps := Step(cfg, opts, Use(OBV));
    assert after == steps;
    after := after[ObvOpt(ObvRule) := Get(opts, "rule", after[ObvOpt(ObvRule)])];
    steps := Step(steps, opts, ObvOpt(ObvRule));
    assert after == steps;
  }

  /** The `if "ema" in indicators:` block of `_build_config`. */
  method ApplyEma(cfg: EngineConfig, opts: map<string, Scalar>) returns (after: EngineConfig)
    requires forall f :: f in cfg
    ensures after == Overlay(cfg, opts, FieldsOf(EMA))
  {
    after := cfg[Use(EMA) := Get(opts, "use", Leaf(BoolV(true)))];
    ghost var steps := Step(cfg, opts, Use(EMA));
    assert after == steps;
    after := after[EmaOpt(EmaShort) := Get(opts, "short", after[EmaOpt(EmaShort)])];
    steps := Step(steps, opts, EmaOpt(EmaShort));
    assert after == steps;
    after := after[EmaOpt(EmaLong) := Get(opts, "long", after[EmaOpt(EmaLong)])];
    steps := Step(steps, opts, EmaOpt(EmaLong));
    assert after == steps;
  }

  /**
   * What `_build_config` has built once the blocks of the indicators in
   * `done` have been applied: those indicators' attributes and the top-level
   * ones hold their final values, the others their defaults.
   */
  function Stage(indicators: Indicators, done: set<Kind>): (cfg: EngineConfig)
  {
    map f | f in Fields :: if Owner(f).Some? && Owner(f).value !in done then Default(f) else Expected(indicators, f)
  }

  /** None of the blocks in `done` is a non-dictionary. */
  predicate BlocksOk(indicators: Indicators, done: set<Kind>)
  {
    forall k :: k in done && BlockKey(k) in indicators ==> indicators[BlockKey(k)].Dict?
  }

  /** The configuration before any block: the defaults, with `policy` and
      `atleast_k` taken from the top level. */
  lemma InitialStage(indicators: Indicators, cfg: EngineConfig)
    requires cfg == (map f | f in Fields :: Default(f))
      [Policy := if "policy" in indicators then indicators["policy"] else Leaf(StrV("any"))]
      [AtleastK := if "atleast_k" in indicators then indicators["atleast_k"] else Leaf(IntV(2))]
    ensures cfg == Stage(indicators, {})
    ensures forall f :: f in cfg
  {
    var s := Stage(indicators, {});
    forall f ensures f in cfg && f in s && cfg[f] == s[f] {
      AllFieldsListed(f);
      if f != Policy && f != AtleastK {
        assert Owner(f).Some?;
      }
    }
  }

  /** Once every block is applied, every attribute has its expected value. */
  lemma FinalStage(indicators: Indicators, done: set<Kind>)
    requires forall k :: k in done
    ensures forall f :: f in Stage(indicators, done) && Stage(indicators, done)[f] == Expected(indicators, f)
  {
    forall f ensures f in Stage(indicators, done) {
      AllFieldsListed(f);
    }
  }

  /** One attribute after one more block (or an absent one). */
  lemma BlockStepAt(cfg: EngineConfig, after: EngineConfig, indicators: Indicators, done: set<Kind>, k: Kind, f: Field)
    requires cfg == Stage(indicators, done) && k !in done
    requires forall g :: g in cfg
    requires BlockKey(k) !in indicators ==> after == cfg
    requires BlockKey(k) in indicators ==>
      indicators[BlockKey(k)].Dict? && after == Overlay(cfg, indicators[BlockKey(k)].entries, FieldsOf(k))
    ensures f in after && f in Stage(indicators, done + {k}) && after[f] == Stage(indicators, done + {k})[f]
  {
    AllFieldsListed(f);
    FieldsOfOwner(k, f);
    if BlockKey(k) in indicators {
      OverlayAt(cfg, indicators[BlockKey(k)].entries, FieldsOf(k), f);
    }
  }

  /** Applying one more block (or skipping an absent one) extends what is built. */
  lemma BlockStep(cfg: EngineConfig, after: EngineConfig, indicators: Indicators, done: set<Kind>, k: Kind)
    requires cfg == Stage(indicators, done) && k !in done
    requires forall f :: f in cfg
    requires BlockKey(k) !in indicators ==> after == cfg
    requires BlockKey(k) in indicators ==>
      indicators[BlockKey(k)].Dict? && after == Overlay(cfg, indicators[BlockKey(k)].entries, FieldsOf(k))
    ensures after == Stage(indicators, done + {k})
    ensures forall f :: f in after
  {
    var next := Stage(indicators, done + {k});
    forall f ensures f in after && f in next && after[f] == next[f] {
      BlockStepAt(cfg, after, indicators, done, k, f);
    }
    ConfigExt(after, next);
  }

  /** Two configurations that hold every attribute, with equal values, are equal. */
  lemma ConfigExt(a: EngineConfig, b: EngineConfig)
    requires forall f :: f in a && f in b && a[f] == b[f]
    ensures a == b
  {
    assert a.Keys == b.Keys;
  }

  /**
   * One `if "<block>" in indicators:` step of `_build_config`: an absent
   * block leaves the configuration as it is, a dictionary is applied, and
   * anything else raises.
   */
  method ApplyBlock(cfg: EngineConfig, indicators: Indicators, k: Kind, ghost done: set<Kind>)
    returns (r: Result<EngineConfig, ConfigError>)
    requires forall f :: f in cfg
    requires cfg == Stage(indicators, done) && k !in done
    ensures r.Failure? <==> BlockKey(k) in indicators && indicators[BlockKey(k)].Leaf?
    ensures r.Failure? ==> r.error == BlockNotAMapping(BlockKey(k))
    ensures r.Success? ==> r.value == Stage(indicators, done + {k}) && forall f :: f in r.value
  {
    var key := BlockKey(k);
    if key !in indicators {
      BlockStep(cfg, cfg, indicators, done, k);
      return Success(cfg);
    }
    match indicators[key]
    case Leaf(_) =>
      return Failure(BlockNotAMapping(key));
    case Dict(opts) =>
      var after: EngineConfig;
      match k {
        case RSI => after := ApplyRsi(cfg, opts);
        case Stochastic => after := ApplyStoch(cfg, opts);
        case ADX => after := ApplyAdx(cfg, opts);
        case Aroon => after := ApplyAroon(cfg, opts);
        case MACD => after := ApplyMacd(cfg, opts);
        case OBV => after := ApplyObv(cfg, opts);
        case EMA => after := ApplyEma(cfg, opts);
      }
      BlockStep(cfg, after, indicators, done, k);
      return Success(after);
  }

  /**
   * `_build_config`: every attribute gets its default, then each indicator
   * block present in the request (in the order rsi, stoch, adx, aroon, macd,
   * obv, ema) switches its indicator on unless it says otherwise and
   * overrides the options it supplies; `policy` and `atleast_k` come from the
   * top level.  A block that is not a dictionary raises.
   */
  method BuildConfig(indicators: Indicators) returns (r: Result<EngineConfig, ConfigError>)
    ensures r.Failure? <==> exists k :: BlockKey(k) in indicators && indicators[BlockKey(k)].Leaf?
    ensures r.Success? ==> forall f :: f in r.value && r.value[f] == Expected(indicators, f)
  {
    var cfg: EngineConfig := map f | f in Fields :: Default(f);
    cfg := cfg[Policy := if "policy" in indicators then indicators["policy"] else Leaf(StrV("any"))];
    cfg := cfg[AtleastK := if "atleast_k" in indicators then indicators["atleast_k"] else Leaf(IntV(2))];
    InitialStage(indicators, cfg);
    ghost var done: set<Kind> := {};
    var step: Result<EngineConfig, ConfigError>;
    step := ApplyBlock(cfg, indicators, RSI, done);
    if step.Failure? {
      return Failure(step.error);
    }
    cfg, done := step.value, done + {RSI};
    step := ApplyBlock(cfg, indicators, Stochastic, done);
    if step.Failure? {
      return Failure(step.error);
    }
    cfg, done := step.value, done + {Stochastic};
    step := ApplyBlock(cfg, indicators, ADX, done);
    if step.Failure? {
      return Failure(step.error);
    }
    cfg, done := step.value, done + {ADX};
    step := ApplyBlock(cfg, indicators, Aroon, done);
    if step.Failure? {
      return Failure(step.error);
    }
    cfg, done := step.value, done + {Aroon};
    step := ApplyBlock(cfg, indicators, MACD, done);
    if step.Failure? {
      return Failure(step.error);
    }
    cfg, done := step.value, done + {MACD};
    step := ApplyBlock(cfg, indicators, OBV, done);
    if step.Failure? {
      return Failure(step.error);
    }
    cfg, done := step.value, done + {OBV};
    step := ApplyBlock(cfg, indicators, EMA, done);
    if step.Failure? {
      return Failure(step.error);
    }
    cfg, done := step.value, done + {EMA};
    forall k ensures k in done && !(BlockKey(k) in indicators && indicators[BlockKey(k)].Leaf?) {
      match k
      case RSI =>
      case Stochastic =>
      case ADX =>
      case Aroon =>
      case MACD =>
      case OBV =>
      case EMA =>
    }
    FinalStage(indicators, done);
    r := Success(cfg);
  }

  // ---------------------------------------------------------------------
  // _make_trades

  /** A row of the engine's picks: its date, adjusted close, next-day return
      (`None` when the column is missing or the value is NaN) and ticker. */
  datatype PickRow = PickRow(date: Dates.Date, adjClose: real, fwdRet1d: Option<real>, symbol: string)

  /** The response's `Trade` model. */
  datatype Trade = Trade(enterDate: string, enterPrice: real, exitDate: string, exitPrice: real,
                         pnl: real, ret: real, symbol: string)

  /** Every pick's date is a timestamp pandas can hold. */
  predicate Stamped(picks: seq<PickRow>)
  {
    forall i :: 0 <= i < |picks| ==> Dates.Stamp(picks[i].date)
  }

  predicate Priced(row: PickRow)
  {
    row.fwdRet1d.Some?
  }

  /** The one-day trade of a pick with a return: bought at the close and sold
      a calendar day later at the close moved by the return. */
  function TradeOf(row: PickRow): Trade
    requires Priced(row) && Dates.Stamp(row.date)
  {
    var exit := row.adjClose * (1.0 + row.fwdRet1d.value);
    Trade(Dates.Format(row.date), row.adjClose, Dates.Format(Dates.NextDay(row.date)),
          exit, exit - row.adjClose, row.fwdRet1d.value, row.symbol)
  }

  /** The trades of the picks, in pick order; picks without a return make none. */
  function TradesOf(picks: seq<PickRow>): (ts: seq<Trade>)
    requires Stamped(picks)
    ensures |ts| <= |picks|
  {
    if picks == [] then []
    else
      var last := picks[|picks| - 1];
      TradesOf(picks[..|picks| - 1]) + (if Priced(last) then [TradeOf(last)] else [])
  }

  /** The number of picks with a return. */
  function PricedCount(picks: seq<PickRow>): nat
  {
    if picks == [] then 0
    else PricedCount(picks[..|picks| - 1]) + (if Priced(picks[|picks| - 1]) then 1 else 0)
  }

  /** `_make_trades`. */
  method MakeTrades(picks: seq<PickRow>) returns (trades: seq<Trade>)
    requires Stamped(picks)
    ensures trades == TradesOf(picks)
  {
    trades := [];
    if |picks| == 0 {
      return;
    }
    for i := 0 to |picks|
      invariant trades == TradesOf(picks[..i])
    {
      ghost var upTo := picks[..i + 1];
      assert upTo[..i] == picks[..i] && upTo[i] == picks[i];
      assert TradesOf(upTo) == TradesOf(picks[..i]) + (if Priced(picks[i]) then [TradeOf(picks[i])] else []);
      var row := picks[i];
      if row.fwdRet1d.None? {
        continue;
      }
      trades := trades + [TradeOf(row)];
    }
    assert picks[..|picks|] == picks;
  }

  /** A trade's prices and profit agree: the exit is the entry moved by the
      return and the profit is exit minus entry, so entry times return. */
  lemma TradePrices(row: PickRow)
    requires Priced(row) && Dates.Stamp(row.date)
    ensures var t := TradeOf(row);
      && t.exitPrice == t.enterPrice * (1.0 + t.ret)
      && t.pnl == t.exitPrice - t.enterPrice
      && t.pnl == t.enterPrice * t.ret
      && t.enterPrice == row.adjClose && t.ret == row.fwdRet1d.value && t.symbol == row.symbol
  {
  }

  /** A trade is entered on the pick's date and exited the calendar day after. */
  lemma TradeDates(row: PickRow)
    requires Priced(row) && Dates.Stamp(row.date)
    ensures Dates.Parse(TradeOf(row).enterDate) == Some(row.date)
    ensures Dates.Parse(TradeOf(row).exitDate) == Some(Dates.NextDay(row.date))
  {
    Dates.ParseFormat(row.date);
    Dates.ParseFormat(Dates.NextDay(row.date));
  }

  /** The trades of consecutive stretches of picks follow each other. */
  lemma {:induction false} TradesOfAppend(a: seq<PickRow>, b: seq<PickRow>)
    requires Stamped(a) && Stamped(b)
    ensures Stamped(a + b) && TradesOf(a + b) == TradesOf(a) + TradesOf(b)
    decreases |b|
  {
    var ab := a + b;
    assert Stamped(ab) by {
      forall i | 0 <= i < |ab| ensures Dates.Stamp(ab[i].date) {
        if i >= |a| {
          assert ab[i] == b[i - |a|];
        }
      }
    }
    if b == [] {
      assert ab == a;
    } else {
      var init := b[..|b| - 1];
      assert ab[..|ab| - 1] == a + init;
      TradesOfAppend(a, init);
    }
  }

  /**
   * `_make_trades` makes one trade per pick with a return (so the response's
   * `trades_count` is the number of such picks), every trade comes from such
   * a pick, and every such pick makes its trade.
   */
  lemma {:induction false} TradesOfSpec(picks: seq<PickRow>)
    requires Stamped(picks)
    ensures |TradesOf(picks)| == PricedCount(picks)
    ensures forall t :: t in TradesOf(picks) ==> exists row :: row in picks && Priced(row) && Dates.Stamp(row.date) && t == TradeOf(row)
    ensures forall row :: row in picks && Priced(row) ==> TradeOf(row) in TradesOf(picks)
  {
    if picks != [] {
      var init := picks[..|picks| - 1];
      var last := picks[|picks| - 1];
      TradesOfSpec(init);
      assert forall row :: row in picks <==> row in init || row == last;
    }
  }
}
