/**
 * The end-of-day rules of the regime-switching simulator
 * (`run_simulation` of backtest-switching.py), as pure functions over one
 * day's inputs: financing accrual, valuation, forced liquidation, position
 * closes, the hysteresis regime switch, entry gating, candidate
 * collection, ranking and sequential admission. `StepSpec` composes them in
 * the source's order; `SwitchingBacktest` runs them in place.
 */
module SwitchingRules {
  import opened MarketData
  import opened Calendar
  import opened Ranking

  datatype Regime = Normal | Inverse
  datatype PositionType = Long | Short

  /** The module-level constants of the script, passed explicitly. */
  datatype Config = Config(
    leverage: real,        // LEVERAGE_FACTOR
    initialCapital: real,  // INITIAL_CAPITAL
    maxPositions: nat,     // MAX_CONCURRENT_POSITIONS
    startDate: int,        // START_DATE as a day number
    timeStop: int,         // TIME_STOP in business days, 0 = disabled
    vixProtection: real,   // VIX_PROTECTION, 0 = disabled
    entryThreshold: real,  // SP500_ENTRY_THRESHOLD
    ranking: Method)       // the run's prioritization method

  /** The script's own settings (START_DATE 2007-01-01 is day 13514). */
  const DefaultConfig: Config := Config(5.0, 1700.0, 8, 13514, 10, 45.0, 1.02, Rsi)

  /** The position sizing divides by the leverage factor. */
  predicate ValidConfig(cfg: Config) {
    cfg.leverage > 0.0
  }

  /** Broad-market readings of one date: S&P 500 close and SMA 200, VIX, Fed rate. */
  datatype MarketSample = MarketSample(
    spClose: Option<real>,
    spSma200: Option<real>,
    vix: Option<real>,
    fedRate: Option<real>)

  /** One date of the master index with every ticker's row and the market readings. */
  datatype Day = Day(date: int, bars: map<Ticker, Bar>, market: MarketSample)

  /** An open position; `strategy` is the regime it was opened under. */
  datatype Position = Position(
    ticker: Ticker,
    quantity: real,
    buyDate: int,
    investmentCost: real,
    notional: real,
    accumulatedSwap: real,
    strategy: Regime,
    positionType: PositionType)

  /** An entry of `strategy_type_history`. */
  datatype RegimeChange = RegimeChange(date: int, from: Regime, to: Regime)

  // ---------------------------------------------------------------------
  // Signal columns (backtest-switching.py:167-174)
  // ---------------------------------------------------------------------

  /** `is_buy_signal_normal` / `is_buy_signal_inverse`. */
  predicate BuySignal(bar: Bar, regime: Regime) {
    match regime
    case Normal => Above(bar.close, bar.sma200) && Below(bar.rsi2, Some(5.0)) && Below(bar.close, bar.sma5)
    case Inverse => Below(bar.close, bar.sma200) && Above(bar.rsi2, Some(85.0))
  }

  /** `is_exit_signal_normal` / `is_exit_signal_inverse`. */
  predicate ExitSignal(bar: Bar, regime: Regime) {
    match regime
    case Normal => Above(bar.close, bar.sma5)
    case Inverse => Below(bar.rsi2, Some(30.0)) || Below(bar.close, bar.sma5)
  }

  // ---------------------------------------------------------------------
  // 1. Financing accrual
  // ---------------------------------------------------------------------

  /** Annual swap rate: the Fed rate (4.0 when missing) in percent plus a 2.5% spread. */
  function SwapRateAnnual(m: MarketSample): real {
    m.fedRate.GetOr(4.0) / 100.0 + 0.025
  }

  /** One day's financing on a position at annual rate `rate`. */
  function DailySwap(p: Position, rate: real): real {
    p.notional * rate / 360.0
  }

  /** Adds one day's financing to every position, in book order. */
  function Accrue(book: seq<Position>, rate: real): (r: seq<Position>)
    ensures |r| == |book|
    ensures forall i :: 0 <= i < |book| ==> r[i].ticker == book[i].ticker
  {
    if book == [] then []
    else
      var p := book[|book| - 1];
      Accrue(book[..|book| - 1], rate) + [p.(accumulatedSwap := p.accumulatedSwap + DailySwap(p, rate))]
  }

  /** Financing is charged only when the leverage factor exceeds 1. */
  function AccruedBook(cfg: Config, book: seq<Position>, m: MarketSample): (r: seq<Position>)
    ensures |r| == |book| && forall i :: 0 <= i < |book| ==> r[i].ticker == book[i].ticker
  {
    if cfg.leverage > 1.0 then Accrue(book, SwapRateAnnual(m)) else book
  }

  // ---------------------------------------------------------------------
  // 2. Valuation
  // ---------------------------------------------------------------------

  /** Every held ticker has a row with a known close. */
  predicate PricesKnown(book: seq<Position>, bars: map<Ticker, Bar>) {
    forall i :: 0 <= i < |book| ==> KnownClose(bars, book[i].ticker)
  }

  /** Unrealized P&L at `price`: long gains when the price rises, short when it falls. */
  function Pnl(p: Position, price: real): real {
    match p.positionType
    case Short => p.notional - price * p.quantity
    case Long => price * p.quantity - p.notional
  }

  /** A position's equity: its margin plus unrealized P&L (financing not deducted). */
  function Equity(p: Position, price: real): real {
    p.investmentCost + Pnl(p, price)
  }

  /** Sum of the equities of the book at the day's closes. */
  function BookEquity(book: seq<Position>, bars: map<Ticker, Bar>): real
    requires PricesKnown(book, bars)
  {
    if book == [] then 0.0
    else
      var p := book[|book| - 1];
      BookEquity(book[..|book| - 1], bars) + Equity(p, CloseOf(bars, p.ticker))
  }

  /** `total_portfolio_value`. */
  function DayValue(cash: real, book: seq<Position>, bars: map<Ticker, Bar>): real
    requires PricesKnown(book, bars)
  {
    cash + BookEquity(book, bars)
  }

  /** Total financing accumulated over the book. */
  function TotalSwap(book: seq<Position>): real {
    if book == [] then 0.0
    else TotalSwap(book[..|book| - 1]) + book[|book| - 1].accumulatedSwap
  }

  // ---------------------------------------------------------------------
  // Closing a position (margin call and exits)
  // ---------------------------------------------------------------------

  /** Realized P&L at `price`, net of the accumulated financing. */
  function Realized(p: Position, price: real): real {
    Pnl(p, price) - p.accumulatedSwap
  }

  /** What closing at `price` credits to cash. */
  function Proceeds(p: Position, price: real): real {
    p.investmentCost + Realized(p, price)
  }

  /** The trade record of closing `p` at `price` on `date`. */
  function CloseTrade(p: Position, price: real, date: int, reason: Option<ExitReason>): Trade {
    Trade(p.ticker, BusDayCount(p.buyDate, date), Realized(p, price), p.investmentCost, reason)
  }

  /** The trades of closing every position of `ps` at the day's closes, in order. */
  function Trades(ps: seq<Position>, bars: map<Ticker, Bar>, date: int, reason: Option<ExitReason>): (r: seq<Trade>)
    requires PricesKnown(ps, bars)
    ensures |r| == |ps|
    ensures forall i :: 0 <= i < |ps| ==> r[i] == CloseTrade(ps[i], CloseOf(bars, ps[i].ticker), date, reason)
  {
    if ps == [] then []
    else
      var p := ps[|ps| - 1];
      Trades(ps[..|ps| - 1], bars, date, reason) + [CloseTrade(p, CloseOf(bars, p.ticker), date, reason)]
  }

  /** Total cash credited by closing every position of `ps`. */
  function TotalProceeds(ps: seq<Position>, bars: map<Ticker, Bar>): real
    requires PricesKnown(ps, bars)
  {
    if ps == [] then 0.0
    else
      var p := ps[|ps| - 1];
      TotalProceeds(ps[..|ps| - 1], bars) + Proceeds(p, CloseOf(bars, p.ticker))
  }

  // ---------------------------------------------------------------------
  // 4. Exits: time stop or the exit signal of the position's own strategy
  // ---------------------------------------------------------------------

  /** The time stop is enabled and the position has been held long enough. */
  predicate TimeStopFired(cfg: Config, p: Position, date: int) {
    cfg.timeStop > 0 && BusDayCount(p.buyDate, date) >= cfg.timeStop
  }

  /** Close on the time stop or on the exit flag keyed by the stored strategy. */
  predicate ShouldClose(cfg: Config, p: Position, bars: map<Ticker, Bar>, date: int)
    requires p.ticker in bars
  {
    ExitSignal(bars[p.ticker], p.strategy) || TimeStopFired(cfg, p, date)
  }

  /** The reason a close is reported with. */
  datatype CloseReason = TimeStop | ExitSignalOf(strategy: Regime)

  /** `exit_reason`: the time stop wins when both fire. */
  function ReportedReason(cfg: Config, p: Position, date: int): CloseReason {
    if TimeStopFired(cfg, p, date) then TimeStop else ExitSignalOf(p.strategy)
  }

  /** The positions that stay open, in book order. */
  function Kept(cfg: Config, book: seq<Position>, bars: map<Ticker, Bar>, date: int): (r: seq<Position>)
    requires PricesKnown(book, bars)
    ensures forall p :: p in r ==> p in book && !ShouldClose(cfg, p, bars, date)
    ensures PricesKnown(r, bars)
    ensures |r| <= |book|
  {
    if book == [] then []
    else
      var p := book[|book| - 1];
      Kept(cfg, book[..|book| - 1], bars, date) + (if ShouldClose(cfg, p, bars, date) then [] else [p])
  }

  /** The positions that close, in book order. */
  function Closed(cfg: Config, book: seq<Position>, bars: map<Ticker, Bar>, date: int): (r: seq<Position>)
    requires PricesKnown(book, bars)
    ensures forall p :: p in r ==> p in book && ShouldClose(cfg, p, bars, date)
    ensures PricesKnown(r, bars)
    ensures |r| <= |book|
  {
    if book == [] then []
    else
      var p := book[|book| - 1];
      Closed(cfg, book[..|book| - 1], bars, date) + (if ShouldClose(cfg, p, bars, date) then [p] else [])
  }

  // ---------------------------------------------------------------------
  // 5. Regime switch with hysteresis
  // ---------------------------------------------------------------------

  predicate HasSp500(m: MarketSample) {
    m.spClose.Some? && m.spSma200.Some?
  }

  /** `is_sp500_bearish`: below the long average. */
  predicate Sp500Bearish(m: MarketSample) {
    HasSp500(m) && m.spClose.value < m.spSma200.value
  }

  /** `is_sp500_strong`: above the long average times the entry threshold. */
  predicate Sp500Strong(cfg: Config, m: MarketSample) {
    HasSp500(m) && m.spClose.value > m.spSma200.value * cfg.entryThreshold
  }

  /** `vix_trigger`: protection on and VIX above the ceiling. */
  predicate VixTrigger(cfg: Config, m: MarketSample) {
    cfg.vixProtection > 0.0 && m.vix.Some? && m.vix.value > cfg.vixProtection
  }

  /** `vix_ok`: protection off, or VIX below 80% of the ceiling. */
  predicate VixOk(cfg: Config, m: MarketSample) {
    cfg.vixProtection == 0.0 || (m.vix.Some? && m.vix.value < cfg.vixProtection * 0.8)
  }

  /** The regime after the day's switch test. */
  function NextRegime(cfg: Config, regime: Regime, m: MarketSample): Regime {
    match regime
    case Normal => if VixTrigger(cfg, m) || Sp500Bearish(m) then Inverse else Normal
    case Inverse => if VixOk(cfg, m) && Sp500Strong(cfg, m) then Normal else Inverse
  }

  /** The history after the switch: one entry exactly when the regime changed. */
  function RecordChange(history: seq<RegimeChange>, date: int, from: Regime, to: Regime): seq<RegimeChange> {
    if to != from then history + [RegimeChange(date, from, to)] else history
  }

  // ---------------------------------------------------------------------
  // 6. Entry gating, candidates and ranking
  // ---------------------------------------------------------------------

  /** The precomputed `is_bearish` column: S&P close below SMA 200 times the threshold. */
  predicate Sp500BelowThreshold(cfg: Config, m: MarketSample) {
    HasSp500(m) && m.spClose.value < m.spSma200.value * cfg.entryThreshold
  }

  /** `can_enter`: NORMAL needs a strong S&P 500, INVERSE the `is_bearish` flag. */
  predicate CanEnter(cfg: Config, regime: Regime, m: MarketSample) {
    match regime
    case Normal => Sp500Strong(cfg, m)
    case Inverse => Sp500BelowThreshold(cfg, m)
  }

  /** The tickers of the book. */
  function HeldTickers(book: seq<Position>): set<Ticker> {
    set p | p in book :: p.ticker
  }

  /** A ticker of the universe that is a candidate today. */
  predicate IsCandidate(bars: map<Ticker, Bar>, held: set<Ticker>, regime: Regime, t: Ticker) {
    t !in held && t in bars && BuySignal(bars[t], regime) && bars[t].close.Some?
  }

  /** The candidate record of a ticker that is a candidate. */
  function CandidateOf(bars: map<Ticker, Bar>, held: set<Ticker>, regime: Regime, t: Ticker): Candidate
    requires IsCandidate(bars, held, regime, t)
  {
    var bar := bars[t];
    Candidate(t, bar.rsi2.value, bar.close.value, bar.hv100, bar.adx14)
  }

  /** `potential_buys`, collected in universe order. */
  function Candidates(universe: seq<Ticker>, bars: map<Ticker, Bar>, held: set<Ticker>, regime: Regime): seq<Candidate> {
    if universe == [] then []
    else
      var t := universe[|universe| - 1];
      Candidates(universe[..|universe| - 1], bars, held, regime)
        + (if IsCandidate(bars, held, regime, t) then [CandidateOf(bars, held, regime, t)] else [])
  }

  /** The sort key and direction of a method; only 'RSI' depends on the regime. */
  function SortSpecFor(m: Method, regime: Regime): SortSpec {
    match m
    case Rsi => SortSpec(ByRsi, regime == Inverse)
    case RsiDesc => SortSpec(ByRsi, true)
    case HvDesc => SortSpec(ByHv, true)
    case AdxDesc => SortSpec(ByAdx, true)
    case AToZ => SortSpec(ByTicker, false)
    case ZToA => SortSpec(ByTicker, true)
    case Unknown(_) => SortSpec(ByRsi, false)
  }

  // ---------------------------------------------------------------------
  // 7. Sequential, leverage-aware admission
  // ---------------------------------------------------------------------

  /** The cash and the book that admission works on. */
  datatype Ledger = Ledger(cash: real, book: seq<Position>)

  /** `MAX_CONCURRENT_POSITIONS - len(positions)`. */
  function OpenSlots(cfg: Config, book: seq<Position>): int {
    cfg.maxPositions - |book|
  }

  /** The type of a position opened under `regime`. */
  function TypeFor(regime: Regime): PositionType {
    if regime == Inverse then Short else Long
  }

  /** `floor(cash / slots * leverage / price)`. */
  function Quantity(cfg: Config, cash: real, slots: int, price: real): int
    requires slots != 0 && price != 0.0
  {
    (cash / slots as real * cfg.leverage / price).Floor
  }

  /** The position a candidate opens, or `None` when it is skipped. */
  function TryAdmit(cfg: Config, regime: Regime, date: int, l: Ledger, c: Candidate): Option<Position>
    requires ValidConfig(cfg) && OpenSlots(cfg, l.book) != 0
  {
    if c.price <= 0.0 then None
    else Fill(cfg, regime, date, l.cash, c, Quantity(cfg, l.cash, OpenSlots(cfg, l.book), c.price))
  }

  /** The margin of `qty` units at `price`: notional over the leverage factor. */
  function Margin(cfg: Config, qty: int, price: real): real
    requires ValidConfig(cfg)
  {
    qty as real * price / cfg.leverage
  }

  /** Buying `qty` units of `c`: skipped when nothing is bought, below 5.0 of margin, or unaffordable. */
  function Fill(cfg: Config, regime: Regime, date: int, cash: real, c: Candidate, qty: int): Option<Position>
    requires ValidConfig(cfg)
  {
    if qty <= 0 || Margin(cfg, qty, c.price) < 5.0 || cash < Margin(cfg, qty, c.price) then None
    else Some(Position(c.ticker, qty as real, date, Margin(cfg, qty, c.price), qty as real * c.price, 0.0, regime, TypeFor(regime)))
  }

  /** Tries the candidates in order, stopping when the book is full. */
  function AdmitAll(cfg: Config, regime: Regime, date: int, l: Ledger, cands: seq<Candidate>): Ledger
    requires ValidConfig(cfg)
    decreases |cands|
  {
    if cands == [] || OpenSlots(cfg, l.book) == 0 then l
    else
      match TryAdmit(cfg, regime, date, l, cands[0])
      case None => AdmitAll(cfg, regime, date, l, cands[1..])
      case Some(p) => AdmitAll(cfg, regime, date, Ledger(l.cash - p.investmentCost, l.book + [p]), cands[1..])
  }

  function Min(a: int, b: int): int {
    if a <= b then a else b
  }

  /** Gating, collection, ranking, and admission of the first `open_slots` candidates. */
  function EntryPhase(cfg: Config, universe: seq<Ticker>, day: Day, regime: Regime, l: Ledger): Ledger
    requires ValidConfig(cfg)
  {
    var slots := OpenSlots(cfg, l.book);
    if slots > 0 && CanEnter(cfg, regime, day.market) then
      var ranked := Sort(SortSpecFor(cfg.ranking, regime), Candidates(universe, day.bars, HeldTickers(l.book), regime));
      AdmitAll(cfg, regime, day.date, l, ranked[..Min(slots, |ranked|)])
    else l
  }

  // ---------------------------------------------------------------------
  // One day and a whole run
  // ---------------------------------------------------------------------

  /** Everything `run_simulation` carries from one date to the next. */
  datatype SimState = SimState(
    cash: real,
    book: seq<Position>,
    trades: seq<Trade>,
    history: seq<Snapshot>,
    regime: Regime,
    regimeHistory: seq<RegimeChange>,
    halted: bool)

  function InitialState(cfg: Config, regime: Regime): SimState {
    SimState(cfg.initialCapital, [], [], [], regime, [], false)
  }

  /** One date of the loop, steps 1 to 8 in the source's order. */
  function StepSpec(cfg: Config, universe: seq<Ticker>, s: SimState, day: Day): SimState
    requires ValidConfig(cfg) && PricesKnown(s.book, day.bars)
  {
    var book1 := AccruedBook(cfg, s.book, day.market);
    if DayValue(s.cash, book1, day.bars) <= 0.0 then MarginCallDay(s, day, book1)
    else TradingDay(cfg, universe, s, day, book1)
  }

  /** Step 3 on a day whose value is not positive: close everything and stop. */
  function MarginCallDay(s: SimState, day: Day, book1: seq<Position>): SimState
    requires PricesKnown(book1, day.bars)
  {
    var cash1 := s.cash + TotalProceeds(book1, day.bars);
    s.(cash := cash1, book := [],
       trades := s.trades + Trades(book1, day.bars, day.date, Some(MarginCall)),
       history := s.history + [Snapshot(day.date, cash1)],
       halted := true)
  }

  /** Step 4, the exits: close what fires, crediting its proceeds, and keep the rest. */
  function ExitPhase(cfg: Config, cash: real, book1: seq<Position>, bars: map<Ticker, Bar>, date: int): Ledger
    requires PricesKnown(book1, bars)
  {
    Ledger(cash + TotalProceeds(Closed(cfg, book1, bars, date), bars), Kept(cfg, book1, bars, date))
  }

  /** Steps 4 to 8 on a day whose value is positive: exits, snapshot, regime switch, entries. */
  function TradingDay(cfg: Config, universe: seq<Ticker>, s: SimState, day: Day, book1: seq<Position>): SimState
    requires ValidConfig(cfg) && PricesKnown(book1, day.bars)
  {
    var regime := NextRegime(cfg, s.regime, day.market);
    var after := EntryPhase(cfg, universe, day, regime, ExitPhase(cfg, s.cash, book1, day.bars, day.date));
    SimState(after.cash, after.book,
             s.trades + Trades(Closed(cfg, book1, day.bars, day.date), day.bars, day.date, None),
             s.history + [Snapshot(day.date, DayValue(s.cash, book1, day.bars))],
             regime, RecordChange(s.regimeHistory, day.date, s.regime, regime), false)
  }
}
