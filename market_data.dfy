/**
 * Shared vocabulary of both simulators: optional readings (pandas NaN),
 * the per-ticker daily indicator row, and the candidate record that the
 * entry step builds from it.
 */
module MarketData {

  /** A reading that pandas may leave as NaN is `None`. */
  datatype Option<+T> = None | Some(value: T) {
    /** The value, or `default` when the reading is missing. */
    function GetOr(default: T): T {
      match this
      case Some(v) => v
      case None => default
    }
  }

  type Ticker = string

  /**
   * One ticker's row for one date after forward-filling: the close and the
   * precomputed indicators (SMA 200, SMA 5, RSI 2, HV 100, ADX 14).
   */
  datatype Bar = Bar(
    close: Option<real>,
    sma200: Option<real>,
    sma5: Option<real>,
    rsi2: Option<real>,
    hv100: Option<real>,
    adx14: Option<real>)

  /** `a > b` on two readings; any comparison with NaN is false. */
  predicate Above(a: Option<real>, b: Option<real>) {
    a.Some? && b.Some? && a.value > b.value
  }

  /** `a < b` on two readings; any comparison with NaN is false. */
  predicate Below(a: Option<real>, b: Option<real>) {
    a.Some? && b.Some? && a.value < b.value
  }

  /** A potential entry collected on one day: ticker, RSI, price, HV and ADX. */
  datatype Candidate = Candidate(
    ticker: Ticker,
    rsi: real,
    price: real,
    hv: Option<real>,
    adx: Option<real>)

  /** The daily snapshot of total portfolio value. */
  datatype Snapshot = Snapshot(date: int, value: real)

  /** Exit reasons that a completed trade can carry. */
  datatype ExitReason = MarginCall

  /**
   * A completed trade. `reason` is `Some` only where the source stores an
   * exit reason in the trade record (forced liquidation of the switching
   * simulator); every other close records no reason.
   */
  datatype Trade = Trade(
    ticker: Ticker,
    duration: int,
    pnl: real,
    investmentCost: real,
    reason: Option<ExitReason>)

  /** No ticker occurs twice. */
  predicate Distinct(s: seq<Ticker>) {
    forall i, j :: 0 <= i < j < |s| ==> s[i] != s[j]
  }

  /** Bars that are known (non-NaN close) for `t`. */
  predicate KnownClose(bars: map<Ticker, Bar>, t: Ticker) {
    t in bars && bars[t].close.Some?
  }

  /** The known close of `t`. */
  function CloseOf(bars: map<Ticker, Bar>, t: Ticker): real
    requires KnownClose(bars, t)
  {
    bars[t].close.value
  }
}
