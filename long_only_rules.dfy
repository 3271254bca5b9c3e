/**
 * The long-only RSI(2) mean-reversion simulator of backtest.py as
 * specification functions: the signal columns, valuation, exits on the
 * exit flag, ranking, admission that scans the whole ranked list, and one
 * date of the loop. There is no financing, no regime and no short side.
 */
module LongOnlyRules {
  import opened MarketData
  import opened Calendar
  import opened Ranking

  /** The module-level constants of the script, passed explicitly. */
  datatype LongConfig = LongConfig(
    leverage: real,        // LEVERAGE_FACTOR
    initialCapital: real,  // INITIAL_CAPITAL
    maxPositions: nat,     // MAX_CONCURRENT_POSITIONS
    startDate: int,        // START_DATE as a day number
    ranking: Method)       // the run's prioritization method

  /** LEVERAGE_FACTOR 5, INITIAL_CAPITAL 250.0, five slots, START_DATE 2018-01-01 (day 17532), 'RSI'. */
  const DefaultLongConfig: LongConfig := LongConfig(5.0, 250.0, 5, 17532, Rsi)

  /** The sizing divides the notional by the leverage factor. */
  predicate ValidLongConfig(cfg: LongConfig) {
    cfg.leverage > 0.0
  }

  /** One date of the master index: every ticker's forward-filled row. */
  datatype Day = Day(date: int, bars: map<Ticker, Bar>)

  /** An entry of the `positions` dict; `quantity` is fractional when the leverage is at most 1. */
  datatype Position = Position(
    ticker: Ticker,
    quantity: real,
    buyDate: int,
    investmentCost: real,
    notional: real)

  // ---------------------------------------------------------------------
  // The signal columns
  // ---------------------------------------------------------------------

  /** `is_buy_signal`: above the 200-day SMA, RSI(2) below 5, below the 5-day SMA. */
  predicate BuySignal(bar: Bar) {
    Above(bar.close, bar.sma200) && Below(bar.rsi2, Some(5.0)) && Below(bar.close, bar.sma5)
  }

  /** `is_exit_signal`: the close is above the 5-day SMA. */
  predicate ExitSignal(bar: Bar) {
    Above(bar.close, bar.sma5)
  }

  // ---------------------------------------------------------------------
  // Valuation and closing
  // ---------------------------------------------------------------------

  /** Every held ticker has a row with a known close. */
  predicate PricesKnown(book: seq<Position>, bars: map<Ticker, Bar>) {
    forall i :: 0 <= i < |book| ==> KnownClose(bars, book[i].ticker)
  }

  /** `close * quantity - notional_value`. */
  function Pnl(p: Position, price: real): real {
    price * p.quantity - p.notional
  }

  /** What a position is worth at `price`, and what closing it credits to cash. */
  function Proceeds(p: Position, price: real): real {
    p.investmentCost + Pnl(p, price)
  }

  /** `equity_in_positions` at the day's closes. */
  function BookEquity(book: seq<Position>, bars: map<Ticker, Bar>): real
    requires PricesKnown(book, bars)
  {
    if book == [] then 0.0
    else
      var p := book[|book| - 1];
      BookEquity(book[..|book| - 1], bars) + Proceeds(p, CloseOf(bars, p.ticker))
  }

  /** `total_portfolio_value`. */
  function DayValue(cash: real, book: seq<Position>, bars: map<Ticker, Bar>): real
    requires PricesKnown(book, bars)
  {
    cash + BookEquity(book, bars)
  }

  /** The trade record of closing `p` at `price` on `date`; the script stores no exit reason. */
  function CloseTrade(p: Position, price: real, date: int): Trade {
    Trade(p.ticker, BusDayCount(p.buyDate, date), Pnl(p, price), p.investmentCost, None)
  }

  /** The trades of closing every position of `ps` at the day's closes, in order. */
  function Trades(ps: seq<Position>, bars: map<Ticker, Bar>, date: int): (r: seq<Trade>)
    requires PricesKnown(ps, bars)
    ensures |r| == |ps|
    ensures forall i :: 0 <= i < |ps| ==> r[i] == CloseTrade(ps[i], CloseOf(bars, ps[i].ticker), date)
  {
    if ps == [] then []
    else
      var p := ps[|ps| - 1];
      Trades(ps[..|ps| - 1], bars, date) + [CloseTrade(p, CloseOf(bars, p.ticker), date)]
  }

  /** Close of the exit step: the position's row carries the exit flag. */
  predicate ShouldClose(p: Position, bars: map<Ticker, Bar>)
    requires p.ticker in bars
  {
    ExitSignal(bars[p.ticker])
  }

  /** The positions that stay open after the exit step, in order. */
  function Kept(book: seq<Position>, bars: map<Ticker, Bar>): (r: seq<Position>)
    requires PricesKnown(book, bars)
    ensures forall p :: p in r ==> p in book && !ShouldClose(p, bars)
    ensures PricesKnown(r, bars)
    ensures |r| <= |book|
  {
    if book == [] then []
    else
      var p := book[|book| - 1];
      Kept(book[..|book| - 1], bars) + (if ShouldClose(p, bars) then [] else [p])
  }

  /** The positions the exit step closes, in order. */
  function Closed(book: seq<Position>, bars: map<Ticker, Bar>): (r: seq<Position>)
    requires PricesKnown(book, bars)
    ensures forall p :: p in r ==> p in book && ShouldClose(p, bars)
    ensures PricesKnown(r, bars)
    ensures |r| <= |book|
  {
    if book == [] then []
    else
      var p := book[|book| - 1];
      Closed(book[..|book| - 1], bars) + (if ShouldClose(p, bars) then [p] else [])
  }

  // ---------------------------------------------------------------------
  // Candidates and ranking
  // ---------------------------------------------------------------------

  /** The tickers of the book. */
  function HeldTickers(book: seq<Position>): set<Ticker> {
    set p | p in book :: p.ticker
  }

  /** A ticker of the universe that is a candidate today. */
  predicate IsCandidate(bars: map<Ticker, Bar>, held: set<Ticker>, t: Ticker) {
    t !in held && t in bars && BuySignal(bars[t]) && bars[t].close.Some?
  }

  /** The candidate record of a ticker that is a candidate. */
  function CandidateOf(bars: map<Ticker, Bar>, held: set<Ticker>, t: Ticker): Candidate
    requires IsCandidate(bars, held, t)
  {
    var bar := bars[t];
    Candidate(t, bar.rsi2.value, bar.close.value, bar.hv100, bar.adx14)
  }

  /** `potential_buys`, collected in universe order. */
  function Candidates(universe: seq<Ticker>, bars: map<Ticker, Bar>, held: set<Ticker>): (r: seq<Candidate>)
    ensures forall k :: 0 <= k < |r| ==> IsCandidate(bars, held, r[k].ticker) && r[k] == CandidateOf(bars, held, r[k].ticker)
  {
    if universe == [] then []
    else
      var t := universe[|universe| - 1];
      Candidates(universe[..|universe| - 1], bars, held)
        + (if IsCandidate(bars, held, t) then [CandidateOf(bars, held, t)] else [])
  }

  /** The sort key and direction of a method; an unknown name sorts by RSI ascending. */
  function SortSpecOf(m: Method): SortSpec {
    match m
    case Rsi => SortSpec(ByRsi, false)
    case RsiDesc => SortSpec(ByRsi, true)
    case AToZ => SortSpec(ByTicker, false)
    case ZToA => SortSpec(ByTicker, true)
    case HvDesc => SortSpec(ByHv, true)
    case AdxDesc => SortSpec(ByAdx, true)
    case Unknown(_) => SortSpec(ByRsi, false)
  }

  // ---------------------------------------------------------------------
  // Admission
  // ---------------------------------------------------------------------

  /** The cash and the book that admission works on. */
  datatype Ledger = Ledger(cash: real, book: seq<Position>)

  /**
   * `quantity`: the slot's share of the cash times the leverage over the
   * price, floored only when the leverage factor exceeds 1.
   */
  function Quantity(cfg: LongConfig, cash: real, slots: int, price: real): real
    requires slots != 0 && price != 0.0
  {
    if cfg.leverage > 1.0 then (cash / slots as real * cfg.leverage / price).Floor as real
    else cash / slots as real * cfg.leverage / price
  }

  /** `actual_investment_cost`: the notional over the leverage factor. */
  function Margin(cfg: LongConfig, qty: real, price: real): real
    requires ValidLongConfig(cfg)
  {
    qty * price / cfg.leverage
  }

  /** Buying `qty` units of `c`: skipped when nothing is bought, below 5.0 of margin, or unaffordable. */
  function Fill(cfg: LongConfig, date: int, cash: real, c: Candidate, qty: real): Option<Position>
    requires ValidLongConfig(cfg)
  {
    if qty == 0.0 || Margin(cfg, qty, c.price) < 5.0 || cash < Margin(cfg, qty, c.price) then None
    else Some(Position(c.ticker, qty, date, Margin(cfg, qty, c.price), qty * c.price))
  }

  /** One candidate of the admission loop, sized on the slots open now. */
  function TryBuy(cfg: LongConfig, date: int, l: Ledger, c: Candidate): Option<Position>
    requires ValidLongConfig(cfg) && |l.book| < cfg.maxPositions && c.price != 0.0
  {
    Fill(cfg, date, l.cash, c, Quantity(cfg, l.cash, cfg.maxPositions - |l.book|, c.price))
  }

  /** No candidate is priced at zero (the sizing divides by the price). */
  predicate NonZeroPrices(cands: seq<Candidate>) {
    forall k :: 0 <= k < |cands| ==> cands[k].price != 0.0
  }

  /** Tries the whole ranked list in order, stopping once the book is full. */
  function AdmitAll(cfg: LongConfig, date: int, l: Ledger, cands: seq<Candidate>): Ledger
    requires ValidLongConfig(cfg) && NonZeroPrices(cands)
    decreases |cands|
  {
    if cands == [] || |l.book| >= cfg.maxPositions then l
    else
      match TryBuy(cfg, date, l, cands[0])
      case None => AdmitAll(cfg, date, l, cands[1..])
      case Some(p) => AdmitAll(cfg, date, Ledger(l.cash - p.investmentCost, l.book + [p]), cands[1..])
  }

  /** No row with the buy flag has a zero close. */
  predicate EntryPricesNonZero(bars: map<Ticker, Bar>) {
    forall t :: t in bars && BuySignal(bars[t]) ==> bars[t].close.value != 0.0
  }

  /** Ranking keeps the candidates, so it keeps their prices non-zero. */
  lemma RankedNonZero(spec: SortSpec, universe: seq<Ticker>, bars: map<Ticker, Bar>, held: set<Ticker>)
    requires EntryPricesNonZero(bars)
    ensures NonZeroPrices(Sort(spec, Candidates(universe, bars, held)))
  {
    var cands := Candidates(universe, bars, held);
    var ranked := Sort(spec, cands);
    SortMembers(spec, cands);
    forall k | 0 <= k < |ranked| ensures ranked[k].price != 0.0 {
      assert ranked[k] in cands;
    }
  }

  /** Collection, ranking and admission when a slot is open. */
  function EntryPhase(cfg: LongConfig, universe: seq<Ticker>, day: Day, l: Ledger): Ledger
    requires ValidLongConfig(cfg) && EntryPricesNonZero(day.bars)
  {
    if cfg.maxPositions - |l.book| > 0 then
      var ranked := Sort(SortSpecOf(cfg.ranking), Candidates(universe, day.bars, HeldTickers(l.book)));
      RankedNonZero(SortSpecOf(cfg.ranking), universe, day.bars, HeldTickers(l.book));
      AdmitAll(cfg, day.date, l, ranked)
    else l
  }

  // ---------------------------------------------------------------------
  // One date of the loop
  // ---------------------------------------------------------------------

  /** Everything `run_simulation` carries from one date to the next. */
  datatype LongState = LongState(
    cash: real,
    book: seq<Position>,
    trades: seq<Trade>,
    history: seq<Snapshot>,
    halted: bool)

  function InitialState(cfg: LongConfig): LongState {
    LongState(cfg.initialCapital, [], [], [], false)
  }

  /** One date from START_DATE on: valuation, then a margin call or a trading day. */
  function StepSpec(cfg: LongConfig, universe: seq<Ticker>, s: LongState, day: Day): LongState
    requires ValidLongConfig(cfg) && PricesKnown(s.book, day.bars) && EntryPricesNonZero(day.bars)
  {
    if DayValue(s.cash, s.book, day.bars) <= 0.0 then MarginCallDay(s, day)
    else TradingDay(cfg, universe, s, day)
  }

  /** A day whose value is not positive: close everything, record the cash and stop. */
  function MarginCallDay(s: LongState, day: Day): LongState
    requires PricesKnown(s.book, day.bars)
  {
    var cash1 := s.cash + BookEquity(s.book, day.bars);
    LongState(cash1, [], s.trades + Trades(s.book, day.bars, day.date),
              s.history + [Snapshot(day.date, cash1)], true)
  }

  /** The exit step: close what carries the exit flag, crediting its proceeds, and keep the rest. */
  function ExitPhase(cash: real, book: seq<Position>, bars: map<Ticker, Bar>): Ledger
    requires PricesKnown(book, bars)
  {
    Ledger(cash + BookEquity(Closed(book, bars), bars), Kept(book, bars))
  }

  /** A day whose value is positive: exits, entries, and the value before them as the snapshot. */
  function TradingDay(cfg: LongConfig, universe: seq<Ticker>, s: LongState, day: Day): LongState
    requires ValidLongConfig(cfg) && PricesKnown(s.book, day.bars) && EntryPricesNonZero(day.bars)
  {
    var after := EntryPhase(cfg, universe, day, ExitPhase(s.cash, s.book, day.bars));
    LongState(after.cash, after.book,
              s.trades + Trades(Closed(s.book, day.bars), day.bars, day.date),
              s.history + [Snapshot(day.date, DayValue(s.cash, s.book, day.bars))], false)
  }
}
