/**
 * The multi-ticker backtest driver's configuration and signal logic
 * (backend/backtest_system.py): the `IndicatorConfig` dataclass, its
 * construction from a mapping, the list of enabled indicators, the argument
 * checks and the minimum-history rule of `run_backtest_for_all`, the ticker
 * selection, the combination of per-indicator buy signals, the on-balance
 * volume recurrence and the RSI threshold clamp and rules.
 */
module BacktestSystem {

  import opened Wrappers
  import opened Values

  // ---------------------------------------------------------------------
  // IndicatorConfig

  /** The options of each indicator besides its `use_*` flag. */
  datatype RsiParam = RsiN | RsiOversold | RsiOverbought | RsiRule
  datatype AdxParam = AdxN | AdxMin
  datatype AroonParam = AroonN | AroonUp | AroonDn
  datatype StochParam = StochK | StochD | StochRule | StochThresh
  datatype MacdParam = MacdFast | MacdSlow | MacdSignal | MacdRule
  datatype ObvParam = ObvRule
  datatype EmaParam = EmaShort | EmaLong

  /** The attributes of `IndicatorConfig`: each indicator's `use_*` flag and
      options, then the combination policy and its `k`. */
  datatype Field =
    | Use(kind: Kind)
    | RsiOpt(rsi: RsiParam) | AdxOpt(adx: AdxParam) | AroonOpt(aroon: AroonParam) | StochOpt(stoch: StochParam)
    | MacdOpt(macd: MacdParam) | ObvOpt(obv: ObvParam) | EmaOpt(ema: EmaParam)
    | Policy | AtleastK

  /** The attributes in declaration order, as `dataclasses.fields` lists them. */
  const Fields: seq<Field> := [
    Use(RSI), RsiOpt(RsiN), RsiOpt(RsiOversold), RsiOpt(RsiOverbought), RsiOpt(RsiRule),
    Use(ADX), AdxOpt(AdxN), AdxOpt(AdxMin),
    Use(Aroon), AroonOpt(AroonN), AroonOpt(AroonUp), AroonOpt(AroonDn),
    Use(Stochastic), StochOpt(StochK), StochOpt(StochD), StochOpt(StochRule), StochOpt(StochThresh),
    Use(MACD), MacdOpt(MacdFast), MacdOpt(MacdSlow), MacdOpt(MacdSignal), MacdOpt(MacdRule),
    Use(OBV), ObvOpt(ObvRule),
    Use(EMA), EmaOpt(EmaShort), EmaOpt(EmaLong),
    Policy, AtleastK]

  lemma AllFieldsListed(f: Field)
    ensures f in Fields
  {
    match f
    case Use(k) => FlagListed(k);
    case Policy => assert Fields[27] == f;
    case AtleastK => assert Fields[28] == f;
    case _ => OptionListed(f);
  }

  lemma FlagListed(k: Kind)
    ensures Use(k) in Fields
  {
    var f := Use(k);
    match k
    case RSI => assert Fields[0] == f;
    case ADX => assert Fields[5] == f;
    case Aroon => assert Fields[8] == f;
    case Stochastic => assert Fields[12] == f;
    case MACD => assert Fields[17] == f;
    case OBV => assert Fields[22] == f;
    case EMA => assert Fields[24] == f;
  }

  lemma OptionListed(f: Field)
    requires !f.Use? && f != Policy && f != AtleastK
    ensures f in Fields
  {
    match f
    case RsiOpt(p) =>
      match p {
      case RsiN => assert Fields[1] == f;
      case RsiOversold => assert Fields[2] == f;
      case RsiOverbought => assert Fields[3] == f;
      case RsiRule => assert Fields[4] == f;
      }
    case AdxOpt(p) =>
      match p {
      case AdxN => assert Fields[6] == f;
      case AdxMin => assert Fields[7] == f;
      }
    case AroonOpt(p) =>
      match p {
      case AroonN => assert Fields[9] == f;
      case AroonUp => assert Fields[10] == f;
      case AroonDn => assert Fields[11] == f;
      }
    case StochOpt(p) =>
      match p {
      case StochK => assert Fields[13] == f;
      case StochD => assert Fields[14] == f;
      case StochRule => assert Fields[15] == f;
      case StochThresh => assert Fields[16] == f;
      }
    case MacdOpt(p) =>
      match p {
      case MacdFast => assert Fields[18] == f;
      case MacdSlow => assert Fields[19] == f;
      case MacdSignal => assert Fields[20] == f;
      case MacdRule => assert Fields[21] == f;
      }
    case ObvOpt(_) => assert Fields[23] == f;
    case EmaOpt(p) =>
      match p {
      case EmaShort => assert Fields[25] == f;
      case EmaLong => assert Fields[26] == f;
      }
  }


  /** The short name an indicator's attributes carry. */
  function Short(k: Kind): string
  {
    match k
    case RSI => "rsi"
    case ADX => "adx"
    case Aroon => "aroon"
    case Stochastic => "stoch"
    case MACD => "macd"
    case OBV => "obv"
    case EMA => "ema"
  }

  /** The attribute's Python name, which is also its key in a configuration mapping. */
  function Name(f: Field): string
  {
    match f
    case Use(k) => "use_" + Short(k)
    case RsiOpt(RsiN) => "rsi_n"
    case RsiOpt(RsiOversold) => "rsi_oversold"
    case RsiOpt(RsiOverbought) => "rsi_overbought"
    case RsiOpt(RsiRule) => "rsi_rule"
    case AdxOpt(AdxN) => "adx_n"
    case AdxOpt(AdxMin) => "adx_min"
    case AroonOpt(AroonN) => "aroon_n"
    case AroonOpt(AroonUp) => "aroon_up"
    case AroonOpt(AroonDn) => "aroon_dn"
    case StochOpt(StochK) => "stoch_k"
    case StochOpt(StochD) => "stoch_d"
    case StochOpt(StochRule) => "stoch_rule"
    case StochOpt(StochThresh) => "stoch_thresh"
    case MacdOpt(MacdFast) => "macd_fast"
    case MacdOpt(MacdSlow) => "macd_slow"
    case MacdOpt(MacdSignal) => "macd_signal"
    case MacdOpt(MacdRule) => "macd_rule"
    case ObvOpt(ObvRule) => "obv_rule"
    case EmaOpt(EmaShort) => "ema_short"
    case EmaOpt(EmaLong) => "ema_long"
    case Policy => "policy"
    case AtleastK => "atleast_k"
  }

  /** The dataclass defaults. */
  function Default(f: Field): Value
  {
    match f
    case Use(_) => Leaf(BoolV(false))
    case RsiOpt(RsiN) => Leaf(IntV(14))
    case RsiOpt(RsiOversold) => Leaf(RealV(30.0))
    case RsiOpt(RsiOverbought) => Leaf(RealV(70.0))
    case RsiOpt(RsiRule) => Leaf(StrV("signal"))
    case AdxOpt(AdxN) => Leaf(IntV(14))
    case AdxOpt(AdxMin) => Leaf(RealV(20.0))
    case AroonOpt(AroonN) => Leaf(IntV(25))
    case AroonOpt(AroonUp) => Leaf(RealV(70.0))
    case AroonOpt(AroonDn) => Leaf(RealV(30.0))
    case StochOpt(StochK) => Leaf(IntV(14))
    case StochOpt(StochD) => Leaf(IntV(3))
    case StochOpt(StochRule) => Leaf(StrV("signal"))
    case StochOpt(StochThresh) => Leaf(RealV(20.0))
    case MacdOpt(MacdFast) => Leaf(IntV(12))
    case MacdOpt(MacdSlow) => Leaf(IntV(26))
    case MacdOpt(MacdSignal) => Leaf(IntV(9))
    case MacdOpt(MacdRule) => Leaf(StrV("signal"))
    case ObvOpt(ObvRule) => Leaf(StrV("rise"))
    case EmaOpt(EmaShort) => Leaf(IntV(12))
    case EmaOpt(EmaLong) => Leaf(IntV(26))
    case Policy => Leaf(StrV("any"))
    case AtleastK => Leaf(IntV(2))
  }

  /**
   * An `IndicatorConfig` instance: the attributes passed to the constructor;
   * every other attribute has its default.  The dataclass does not check
   * types, so an attribute holds whatever value it was given.
   */
  datatype IndicatorConfig = IndicatorConfig(given: map<Field, Value>)
  {
    function Get(f: Field): Value
    {
      if f in given then given[f] else Default(f)
    }
  }

  /** What `from_mapping` may be handed. */
  datatype ConfigSource = NoMapping | Instance(config: IndicatorConfig) | Mapping(entries: map<string, Value>)

  /**
   * `IndicatorConfig.from_mapping`: no mapping gives the defaults, an instance
   * is returned as it is, and from a mapping exactly the keys that name an
   * attribute are copied; all other keys are ignored.
   */
  method FromMapping(source: ConfigSource) returns (cfg: IndicatorConfig)
    ensures source.NoMapping? ==> forall f :: cfg.Get(f) == Default(f)
    ensures source.Instance? ==> cfg == source.config
    ensures source.Mapping? ==> forall f ::
      cfg.Get(f) == if Name(f) in source.entries then source.entries[Name(f)] else Default(f)
  {
    match source
    case NoMapping =>
      cfg := IndicatorConfig(map[]);
    case Instance(c) =>
      cfg := c;
    case Mapping(m) =>
      var data: map<Field, Value> := map[];
      for i := 0 to |Fields|
        invariant forall f :: f in data ==> Name(f) in m && data[f] == m[Name(f)]
        invariant forall j :: 0 <= j < i && Name(Fields[j]) in m ==> Fields[j] in data
      {
        var f := Fields[i];
        if |m| != 0 && Name(f) in m {
          data := data[f := m[Name(f)]];
        }
      }
      cfg := IndicatorConfig(data);
      forall f ensures cfg.Get(f) == if Name(f) in m then m[Name(f)] else Default(f) {
        AllFieldsListed(f);
      }
  }

  // ---------------------------------------------------------------------
  // Enabled indicators

  datatype Kind = RSI | ADX | Aroon | Stochastic | MACD | OBV | EMA

  /** The order in which `enabled()` reports the indicators. */
  const Order: seq<Kind> := [RSI, ADX, Aroon, Stochastic, MACD, OBV, EMA]

  function Rank(k: Kind): (i: nat)
    ensures i < |Order| && Order[i] == k
  {
    match k
    case RSI => 0
    case ADX => 1
    case Aroon => 2
    case Stochastic => 3
    case MACD => 4
    case OBV => 5
    case EMA => 6
  }

  function Label(k: Kind): string
  {
    match k
    case RSI => "RSI"
    case ADX => "ADX"
    case Aroon => "Aroon"
    case Stochastic => "Stochastic"
    case MACD => "MACD"
    case OBV => "OBV"
    case EMA => "EMA"
  }

  predicate IsOn(cfg: IndicatorConfig, k: Kind)
  {
    Truthy(cfg.Get(Use(k)))
  }

  /** `[k]` when `k` is switched on, else nothing: one `if` of `enabled()`. */
  function Pick(cfg: IndicatorConfig, k: Kind): seq<Kind>
  {
    if IsOn(cfg, k) then [k] else []
  }

  /** The switched-on indicators among the first `n` of `Order`, in that order. */
  function EnabledAmong(cfg: IndicatorConfig, n: nat): seq<Kind>
    requires n <= |Order|
  {
    if n == 0 then [] else EnabledAmong(cfg, n - 1) + Pick(cfg, Order[n - 1])
  }

  /** The indicators `enabled()` reports, as kinds. */
  function EnabledKinds(cfg: IndicatorConfig): seq<Kind>
  {
    EnabledAmong(cfg, |Order|)
  }

  function Labels(ks: seq<Kind>): (names: seq<string>)
    ensures |names| == |ks|
    ensures forall i :: 0 <= i < |ks| ==> names[i] == Label(ks[i])
  {
    seq(|ks|, i requires 0 <= i < |ks| => Label(ks[i]))
  }

  lemma LabelsSnoc(ks: seq<Kind>, k: Kind)
    ensures Labels(ks + [k]) == Labels(ks) + [Label(k)]
  {
  }

  /** Ranks strictly increase along a sequence. */
  predicate InOrder(ks: seq<Kind>)
  {
    forall a, b :: 0 <= a < b < |ks| ==> Rank(ks[a]) < Rank(ks[b])
  }

  /** `ks` holds exactly the switched-on indicators ranked below `upTo`. */
  predicate Members(cfg: IndicatorConfig, ks: seq<Kind>, upTo: nat)
  {
    forall k :: k in ks <==> Rank(k) < upTo && IsOn(cfg, k)
  }

  /** One `if` of `enabled()` keeps the list ordered and complete so far. */
  lemma PickStep(cfg: IndicatorConfig, ks: seq<Kind>, k: Kind)
    requires InOrder(ks) && Members(cfg, ks, Rank(k))
    ensures InOrder(ks + Pick(cfg, k)) && Members(cfg, ks + Pick(cfg, k), Rank(k) + 1)
  {
    var r := ks + Pick(cfg, k);
    forall a, b | 0 <= a < b < |r| ensures Rank(r[a]) < Rank(r[b]) {
      if b == |ks| {
        assert r[a] in ks;
      }
    }
    forall j ensures j in r <==> Rank(j) < Rank(k) + 1 && IsOn(cfg, j) {
      if Rank(j) == Rank(k) {
        assert Order[Rank(j)] == j;
      }
    }
  }

  /** The first `n` steps of `enabled()` list, in order, the switched-on
      indicators ranked below `n`. */
  lemma {:induction false} EnabledAmongSpec(cfg: IndicatorConfig, n: nat)
    requires n <= |Order|
    ensures InOrder(EnabledAmong(cfg, n)) && Members(cfg, EnabledAmong(cfg, n), n)
  {
    if n > 0 {
      EnabledAmongSpec(cfg, n - 1);
      var k := Order[n - 1];
      assert Rank(k) == n - 1 by {
        match k
        case RSI =>
        case ADX =>
        case Aroon =>
        case Stochastic =>
        case MACD =>
        case OBV =>
        case EMA =>
      }
      PickStep(cfg, EnabledAmong(cfg, n - 1), k);
    }
  }

  /**
   * What `enabled()` lists: each indicator whose flag is true, once, and in
   * the fixed order RSI, ADX, Aroon, Stochastic, MACD, OBV, EMA; nothing
   * exactly when no flag is true.
   */
  lemma EnabledSpec(cfg: IndicatorConfig)
    ensures forall k :: k in EnabledKinds(cfg) <==> IsOn(cfg, k)
    ensures InOrder(EnabledKinds(cfg))
    ensures EnabledKinds(cfg) == [] <==> forall k :: !IsOn(cfg, k)
  {
    var e := EnabledKinds(cfg);
    EnabledAmongSpec(cfg, |Order|);
    if e != [] {
      assert e[0] in e;
    }
  }

  /** One `if self.use_*: names.append(...)` step of `enabled()`. */
  method AppendIfOn(cfg: IndicatorConfig, k: Kind, names: seq<string>, ghost kinds: seq<Kind>)
    returns (names': seq<string>, ghost kinds': seq<Kind>)
    requires kinds == EnabledAmong(cfg, Rank(k)) && names == Labels(kinds)
    ensures kinds' == EnabledAmong(cfg, Rank(k) + 1)
    ensures names' == Labels(kinds')
  {
    if Truthy(cfg.Get(Use(k))) {
      LabelsSnoc(kinds, k);
      names', kinds' := names + [Label(k)], kinds + [k];
    } else {
      names', kinds' := names, kinds;
    }
  }

  /** `IndicatorConfig.enabled`. */
  method Enabled(cfg: IndicatorConfig) returns (names: seq<string>)
    ensures names == Labels(EnabledKinds(cfg))
  {
    ghost var kinds: seq<Kind> := [];
    names := [];
    names, kinds := AppendIfOn(cfg, RSI, names, kinds);
    names, kinds := AppendIfOn(cfg, ADX, names, kinds);
    names, kinds := AppendIfOn(cfg, Aroon, names, kinds);
    names, kinds := AppendIfOn(cfg, Stochastic, names, kinds);
    names, kinds := AppendIfOn(cfg, MACD, names, kinds);
    names, kinds := AppendIfOn(cfg, OBV, names, kinds);
    names, kinds := AppendIfOn(cfg, EMA, names, kinds);
  }

  // ---------------------------------------------------------------------
  // run_backtest_for_all: argument checks, minimum history, tickers

  datatype RunError = NoIndicatorEnabled | HorizonOutOfRange | VolumeMissing | LookbackNotNumeric

  /**
   * The checks `run_backtest_for_all` makes before touching any ticker, in
   * its order: some indicator is enabled, `1 <= hist_horizon <= max_horizon`,
   * and volume data is present when OBV is enabled.
   */
  function CheckRun(cfg: IndicatorConfig, maxHorizon: int, histHorizon: int, hasVolume: bool): (r: Result<(), RunError>)
    ensures r.Success? <==>
      && (exists k :: IsOn(cfg, k))
      && 1 <= histHorizon <= maxHorizon
      && (IsOn(cfg, OBV) ==> hasVolume)
    ensures r == Failure(NoIndicatorEnabled) <==> forall k :: !IsOn(cfg, k)
  {
    EnabledSpec(cfg);
    if EnabledKinds(cfg) == [] then Failure(NoIndicatorEnabled)
    else if histHorizon < 1 || histHorizon > maxHorizon then Failure(HorizonOutOfRange)
    else if IsOn(cfg, OBV) && !hasVolume then Failure(VolumeMissing)
    else Success(())
  }

  /** The attribute holding an indicator's lookback, for those `min_obs` counts. */
  function Lookback(k: Kind): Option<Field>
  {
    match k
    case RSI => Some(RsiOpt(RsiN))
    case ADX => Some(AdxOpt(AdxN))
    case Aroon => Some(AroonOpt(AroonN))
    case Stochastic => Some(StochOpt(StochK))
    case MACD => Some(MacdOpt(MacdSlow))
    case OBV => None
    case EMA => Some(EmaOpt(EmaLong))
  }

  /** The indicators whose lookback enters `min_obs`, in argument order. */
  const LookbackKinds: seq<Kind> := [RSI, ADX, Aroon, Stochastic, MACD, EMA]

  lemma LookbackKindsExact()
    ensures forall k :: k in LookbackKinds <==> Lookback(k).Some?
  {
    forall k ensures k in LookbackKinds <==> Lookback(k).Some? {
      match k
      case RSI => assert LookbackKinds[0] == k;
      case ADX => assert LookbackKinds[1] == k;
      case Aroon => assert LookbackKinds[2] == k;
      case Stochastic => assert LookbackKinds[3] == k;
      case MACD => assert LookbackKinds[4] == k;
      case OBV =>
      case EMA => assert LookbackKinds[5] == k;
    }
  }

  /** An argument of the `max`: the lookback of an enabled indicator, else 0;
      `None` when that lookback is not a number. */
  function Term(cfg: IndicatorConfig, k: Kind): Option<real>
    requires Lookback(k).Some?
  {
    if IsOn(cfg, k) then Numeric(cfg.Get(Lookback(k).value)) else Some(0.0)
  }

  /** Python's `max(acc, *terms)`, failing on the first term that is not a number. */
  function MaxOf(acc: real, cfg: IndicatorConfig, ks: seq<Kind>): (r: Result<real, RunError>)
    requires forall k :: k in ks ==> Lookback(k).Some?
    ensures r.Failure? <==> exists k :: k in ks && Term(cfg, k).None?
    ensures r.Success? ==> acc <= r.value
    ensures r.Success? ==> forall k :: k in ks ==> Term(cfg, k).value <= r.value
    ensures r.Success? ==> (r.value == acc || exists k :: k in ks && Term(cfg, k).value == r.value)
    decreases ks
  {
    if ks == [] then Success(acc)
    else
      match Term(cfg, ks[0])
      case None => Failure(LookbackNotNumeric)
      case Some(t) =>
        var r := MaxOf(if t > acc then t else acc, cfg, ks[1..]);
        assert forall k :: k in ks ==> k == ks[0] || k in ks[1..];
        r
  }

  /**
   * `min_obs`: the largest of `max_horizon + 1` and the lookbacks of the
   * enabled indicators (RSI `rsi_n`, ADX `adx_n`, Aroon `aroon_n`, Stochastic
   * `stoch_k`, MACD `macd_slow`, EMA `ema_long`); a disabled indicator
   * contributes 0 and OBV none.  A lookback Python cannot compare with an
   * integer raises a `TypeError`.
   */
  function MinObs(cfg: IndicatorConfig, maxHorizon: int): (r: Result<real, RunError>)
    ensures r.Failure? <==> exists k :: Lookback(k).Some? && IsOn(cfg, k) && Numeric(cfg.Get(Lookback(k).value)).None?
    ensures r.Success? ==> (maxHorizon + 1) as real <= r.value
    ensures r.Success? ==> forall k :: Lookback(k).Some? && IsOn(cfg, k) ==>
      Numeric(cfg.Get(Lookback(k).value)).value <= r.value
    ensures r.Success? && maxHorizon >= 0 ==> (r.value == (maxHorizon + 1) as real ||
      exists k :: Lookback(k).Some? && IsOn(cfg, k) && Numeric(cfg.Get(Lookback(k).value)).value == r.value)
  {
    LookbackKindsExact();
    var r := MaxOf((maxHorizon + 1) as real, cfg, LookbackKinds);
    assert r.Success? && r.value != (maxHorizon + 1) as real ==> exists k :: k in LookbackKinds && Term(cfg, k).value == r.value;
    r
  }

  /** A column of the adjusted-close wide table; `None` cells are missing prices. */
  datatype Column = Column(ticker: string, cells: seq<Option<real>>)

  predicate HasData(c: Column)
  {
    exists i :: 0 <= i < |c.cells| && c.cells[i].Some?
  }

  predicate Allowed(allowed: Option<seq<string>>, t: string)
  {
    allowed.None? || t in allowed.value
  }

  /**
   * The tickers `run_backtest_for_all` evaluates: the columns with at least
   * one price that are in the allowed set, when one is given, in column order.
   */
  function SelectTickers(columns: seq<Column>, allowed: Option<seq<string>>): (r: seq<string>)
    ensures |r| <= |columns|
    ensures forall t :: t in r <==> exists c :: c in columns && c.ticker == t && HasData(c) && Allowed(allowed, t)
  {
    if columns == [] then []
    else
      var c := columns[0];
      var rest := SelectTickers(columns[1..], allowed);
      assert forall x :: x in columns <==> x == c || x in columns[1..];
      if HasData(c) && Allowed(allowed, c.ticker) then [c.ticker] + rest else rest
  }

  /** `a` can be obtained from the tickers of `columns` by deleting some of
      them. */
  predicate InColumnOrder(a: seq<string>, columns: seq<Column>)
    decreases |columns|
  {
    a == [] || (columns != [] && ((a[0] == columns[0].ticker && InColumnOrder(a[1..], columns[1..]))
                                  || InColumnOrder(a, columns[1..])))
  }

  /** Selection keeps column order. */
  lemma {:induction false} SelectTickersInOrder(columns: seq<Column>, allowed: Option<seq<string>>)
    ensures InColumnOrder(SelectTickers(columns, allowed), columns)
  {
    if columns != [] {
      SelectTickersInOrder(columns[1..], allowed);
    }
  }

  // ---------------------------------------------------------------------
  // combine_signals

  /** All series have the same dates (the same length); pandas aligns them by index. */
  predicate Aligned(signals: seq<seq<bool>>)
  {
    forall j :: 0 <= j < |signals| ==> |signals[j]| == |signals[0]|
  }

  /** The signals of all indicators on one date: a row of the aligned frame. */
  function Row(signals: seq<seq<bool>>, d: nat): (row: seq<bool>)
    requires Aligned(signals) && signals != [] && d < |signals[0]|
    ensures |row| == |signals| && forall j :: 0 <= j < |signals| ==> row[j] == signals[j][d]
  {
    seq(|signals|, j requires 0 <= j < |signals| => signals[j][d])
  }

  /** The number of true entries: a row's `sum`. */
  function Count(row: seq<bool>): (n: nat)
    ensures n <= |row|
  {
    if row == [] then 0 else Count(row[..|row| - 1]) + (if row[|row| - 1] then 1 else 0)
  }

  /** A row's `any()`. */
  function AnyOf(row: seq<bool>): bool
  {
    row != [] && (AnyOf(row[..|row| - 1]) || row[|row| - 1])
  }

  /** A row's `all()`. */
  function AllOf(row: seq<bool>): bool
  {
    row == [] || (AllOf(row[..|row| - 1]) && row[|row| - 1])
  }

  lemma {:induction false} AnyOfSpec(row: seq<bool>)
    ensures AnyOf(row) <==> exists j :: 0 <= j < |row| && row[j]
    ensures AnyOf(row) <==> Count(row) >= 1
  {
    if row != [] {
      var front := row[..|row| - 1];
      AnyOfSpec(front);
      if exists j :: 0 <= j < |row| && row[j] {
        var j :| 0 <= j < |row| && row[j];
        if j < |front| {
          assert front[j];
        }
      }
    }
  }

  lemma {:induction false} AllOfSpec(row: seq<bool>)
    ensures AllOf(row) <==> forall j :: 0 <= j < |row| ==> row[j]
    ensures AllOf(row) <==> Count(row) == |row|
  {
    if row != [] {
      var front := row[..|row| - 1];
      AllOfSpec(front);
      if forall j :: 0 <= j < |row| ==> row[j] {
        assert forall j :: 0 <= j < |front| ==> front[j] by {
          forall j | 0 <= j < |front| ensures front[j] {
            assert front[j] == row[j];
          }
        }
      }
    }
  }

  /**
   * `combine_signals`: per date, "any" is true when some indicator fires,
   * "all" when every one does, "atleast_k" when at least `k` do.  An empty
   * list or any other policy raises.
   */
  function CombineSignals(signals: seq<seq<bool>>, policy: string, k: int): (r: Result<seq<bool>, string>)
    requires Aligned(signals)
    ensures r.Failure? <==> signals == [] || policy !in {"any", "all", "atleast_k"}
    ensures r.Success? ==> |r.value| == |signals[0]|
    ensures r.Success? && policy == "any" ==> forall d :: 0 <= d < |r.value| ==>
      (r.value[d] <==> exists j :: 0 <= j < |signals| && signals[j][d])
    ensures r.Success? && policy == "all" ==> forall d :: 0 <= d < |r.value| ==>
      (r.value[d] <==> forall j :: 0 <= j < |signals| ==> signals[j][d])
    ensures r.Success? && policy == "atleast_k" ==> forall d :: 0 <= d < |r.value| ==>
      (r.value[d] <==> Count(Row(signals, d)) >= k)
  {
    if signals == [] then Failure("No signals provided")
    else if policy == "any" then
      var v := seq(|signals[0]|, d requires 0 <= d < |signals[0]| => AnyOf(Row(signals, d)));
      assert forall d :: 0 <= d < |v| ==> (v[d] <==> exists j :: 0 <= j < |signals| && signals[j][d]) by {
        forall d | 0 <= d < |v| ensures v[d] <==> exists j :: 0 <= j < |signals| && signals[j][d] {
          AnyOfSpec(Row(signals, d));
        }
      }
      Success(v)
    else if policy == "all" then
      var v := seq(|signals[0]|, d requires 0 <= d < |signals[0]| => AllOf(Row(signals, d)));
      assert forall d :: 0 <= d < |v| ==> (v[d] <==> forall j :: 0 <= j < |signals| ==> signals[j][d]) by {
        forall d | 0 <= d < |v| ensures v[d] <==> forall j :: 0 <= j < |signals| ==> signals[j][d] {
          AllOfSpec(Row(signals, d));
        }
      }
      Success(v)
    else if policy == "atleast_k" then
      Success(seq(|signals[0]|, d requires 0 <= d < |signals[0]| => Count(Row(signals, d)) >= k))
    else Failure("Invalid policy: " + policy)
  }

  /** "atleast_k" with k = 1 is "any", and with k = the number of indicators it is "all". */
  lemma AtLeastKBounds(signals: seq<seq<bool>>)
    requires Aligned(signals) && signals != []
    ensures CombineSignals(signals, "atleast_k", 1) == CombineSignals(signals, "any", 1)
    ensures CombineSignals(signals, "atleast_k", |signals|) == CombineSignals(signals, "all", 1)
  {
    var n := |signals[0]|;
    var some := CombineSignals(signals, "any", 1).value;
    var every := CombineSignals(signals, "all", 1).value;
    var one := CombineSignals(signals, "atleast_k", 1).value;
    var full := CombineSignals(signals, "atleast_k", |signals|).value;
    forall d | 0 <= d < n ensures one[d] == some[d] && full[d] == every[d] {
      AnyOfSpec(Row(signals, d));
      AllOfSpec(Row(signals, d));
    }
    assert one == some;
    assert full == every;
  }

  /** Raising k never adds a signal. */
  lemma AtLeastKMonotone(signals: seq<seq<bool>>, k1: int, k2: int)
    requires Aligned(signals) && signals != [] && k1 <= k2
    ensures forall d :: 0 <= d < |signals[0]| && CombineSignals(signals, "atleast_k", k2).value[d] ==>
      CombineSignals(signals, "atleast_k", k1).value[d]
  {
  }

  // ---------------------------------------------------------------------
  // On-balance volume

  /** +1 for an up move, -1 for a down move, 0 when the price is unchanged. */
  function Direction(before: real, after: real): (m: real)
    ensures m == 1.0 || m == -1.0 || m == 0.0
    ensures m == 1.0 <==> after > before
    ensures m == -1.0 <==> after < before
  {
    if after > before then 1.0 else if after < before then -1.0 else 0.0
  }

  /** The recurrence `calculate_obv` fills its series by. */
  ghost predicate ObvRecurrence(prices: seq<real>, volume: seq<real>, obv: seq<real>)
    requires |prices| <= |volume|
  {
    && |obv| == |prices| > 0
    && obv[0] == volume[0]
    && forall i :: 1 <= i < |obv| ==> obv[i] == obv[i - 1] + Direction(prices[i - 1], prices[i]) * volume[i]
  }

  /** `calculate_obv`'s series (the signal it derives is left out). */
  method CalculateObv(prices: seq<real>, volume: seq<real>) returns (obv: array<real>)
    requires |prices| > 0 && |volume| >= |prices|
    ensures ObvRecurrence(prices, volume, obv[..])
  {
    obv := new real[|prices|];
    obv[0] := volume[0];
    for i := 1 to |prices|
      invariant obv[0] == volume[0]
      invariant forall j :: 1 <= j < i ==> obv[j] == obv[j - 1] + Direction(prices[j - 1], prices[j]) * volume[j]
    {
      if prices[i] > prices[i - 1] {
        obv[i] := obv[i - 1] + volume[i];
      } else if prices[i] < prices[i - 1] {
        obv[i] := obv[i - 1] - volume[i];
      } else {
        obv[i] := obv[i - 1];
      }
    }
  }

  /** The recurrence has exactly one solution. */
  lemma {:induction false} ObvUnique(prices: seq<real>, volume: seq<real>, a: seq<real>, b: seq<real>)
    requires |prices| <= |volume|
    requires ObvRecurrence(prices, volume, a) && ObvRecurrence(prices, volume, b)
    ensures a == b
  {
    var i := 1;
    while i < |a|
      invariant 1 <= i <= |a|
      invariant a[..i] == b[..i]
    {
      assert a[i - 1] == b[i - 1];
      assert a[..i + 1] == a[..i] + [a[i]] && b[..i + 1] == b[..i] + [b[i]];
      i := i + 1;
    }
    assert a == a[..|a|] && b == b[..|b|];
  }

  function RealSum(s: seq<real>): real
  {
    if s == [] then 0.0 else RealSum(s[..|s| - 1]) + s[|s| - 1]
  }

  /** With non-negative volumes, OBV never moves further from zero than the volume traded so far. */
  lemma {:induction false} ObvBounded(prices: seq<real>, volume: seq<real>, obv: seq<real>, i: nat)
    requires |prices| <= |volume| && ObvRecurrence(prices, volume, obv) && i < |obv|
    requires forall j :: 0 <= j < |volume| ==> volume[j] >= 0.0
    ensures -RealSum(volume[..i + 1]) <= obv[i] <= RealSum(volume[..i + 1])
  {
    if i == 0 {
      assert volume[..1] == [volume[0]];
      assert RealSum(volume[..1]) == RealSum([]) + volume[0];
    } else {
      ObvBounded(prices, volume, obv, i - 1);
      assert volume[..i + 1][..i] == volume[..i];
    }
  }

  /** While the price does not move, OBV keeps its first value. */
  lemma {:induction false} ObvFlat(prices: seq<real>, volume: seq<real>, obv: seq<real>, i: nat)
    requires |prices| <= |volume| && ObvRecurrence(prices, volume, obv) && i < |obv|
    requires forall j :: 0 <= j < |prices| ==> prices[j] == prices[0]
    ensures obv[i] == volume[0]
  {
    if i > 0 {
      ObvFlat(prices, volume, obv, i - 1);
    }
  }

  // ---------------------------------------------------------------------
  // RSI thresholds and rules

  /** `max(0.0, min(100.0, x))`. */
  function ClampThreshold(x: real): (c: real)
    ensures 0.0 <= c <= 100.0
    ensures 0.0 <= x <= 100.0 ==> c == x
    ensures x < 0.0 ==> c == 0.0
    ensures x > 100.0 ==> c == 100.0
  {
    var m := if 100.0 < x then 100.0 else x;
    if 0.0 > m then 0.0 else m
  }

  /** A comparison of a possibly-NaN value: NaN compares false. */
  predicate Below(v: Option<real>, t: real)
  {
    v.Some? && v.value < t
  }

  predicate AtLeast(v: Option<real>, t: real)
  {
    v.Some? && v.value >= t
  }

  predicate Above(v: Option<real>, t: real)
  {
    v.Some? && v.value > t
  }

  /**
   * The buy rule `calculate_rsi` applies to an RSI series after clamping both
   * thresholds into [0, 100]: "signal" fires where the RSI crosses the
   * oversold level from below, "oversold" where it is under it, "overbought"
   * where it is over the overbought level; any other rule raises.
   */
  function RsiSignal(rsi: seq<Option<real>>, oversold: real, overbought: real, rule: string): (r: Result<seq<bool>, string>)
    ensures r.Failure? <==> rule !in {"signal", "oversold", "overbought"}
    ensures r.Success? ==> |r.value| == |rsi|
  {
    var lo := ClampThreshold(oversold);
    var hi := ClampThreshold(overbought);
    if rule == "signal" then
      Success(seq(|rsi|, i requires 0 <= i < |rsi| => i > 0 && Below(rsi[i - 1], lo) && AtLeast(rsi[i], lo)))
    else if rule == "oversold" then
      Success(seq(|rsi|, i requires 0 <= i < |rsi| => Below(rsi[i], lo)))
    else if rule == "overbought" then
      Success(seq(|rsi|, i requires 0 <= i < |rsi| => Above(rsi[i], hi)))
    else Failure("Invalid rule: " + rule)
  }

  /** A crossover signal on a date means the "oversold" rule held the day before and not on the day. */
  lemma CrossingFollowsOversold(rsi: seq<Option<real>>, oversold: real, overbought: real, i: nat)
    requires i < |rsi|
    requires RsiSignal(rsi, oversold, overbought, "signal").value[i]
    ensures i > 0
    ensures RsiSignal(rsi, oversold, overbought, "oversold").value[i - 1]
    ensures !RsiSignal(rsi, oversold, overbought, "oversold").value[i]
  {
  }

  /** Thresholds outside [0, 100] act as the nearest bound: on RSI values in
      [0, 100] an oversold level at or below 0 and an overbought level at or
      above 100 never fire. */
  lemma ThresholdsOutOfRange(rsi: seq<Option<real>>, oversold: real, overbought: real)
    requires forall i :: 0 <= i < |rsi| && rsi[i].Some? ==> 0.0 <= rsi[i].value <= 100.0
    requires oversold <= 0.0 && overbought >= 100.0
    ensures forall i :: 0 <= i < |rsi| ==> !RsiSignal(rsi, oversold, overbought, "oversold").value[i]
    ensures forall i :: 0 <= i < |rsi| ==> !RsiSignal(rsi, oversold, overbought, "overbought").value[i]
    ensures forall i :: 0 <= i < |rsi| ==> !RsiSignal(rsi, oversold, overbought, "signal").value[i]
  {
  }
}
