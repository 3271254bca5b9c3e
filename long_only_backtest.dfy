/**
 * `run_simulation` of backtest.py as a simulator object whose fields are
 * the loop's mutable locals (`cash`, `positions`, `completed_trades`,
 * `portfolio_value_history`). Each part of a date is a method that updates
 * the fields in place and is proved against the functions of
 * `LongOnlyRules`; `Step` is one date and `Run` the whole loop.
 */
module LongOnlyBacktest {
  import opened MarketData
  import opened Calendar
  import opened Ranking
  import opened LongOnlyRules
  import opened LongOnlyProofs
  import opened LongOnlyRun

  // ---------------------------------------------------------------------
  // One more position or candidate: how the specification functions grow
  // ---------------------------------------------------------------------

  lemma PricesKnownStep(book: seq<Position>, bars: map<Ticker, Bar>, i: int)
    requires PricesKnown(book, bars) && 0 <= i < |book|
    ensures PricesKnown(book[..i], bars) && PricesKnown(book[..i + 1], bars)
    ensures KnownClose(bars, book[i].ticker)
  {
    assert forall k :: 0 <= k <= i ==> book[..i + 1][k] == book[k];
  }

  lemma EquityStep(book: seq<Position>, bars: map<Ticker, Bar>, i: int)
    requires PricesKnown(book, bars) && 0 <= i < |book|
    ensures PricesKnown(book[..i], bars) && PricesKnown(book[..i + 1], bars) && KnownClose(bars, book[i].ticker)
    ensures BookEquity(book[..i + 1], bars) == BookEquity(book[..i], bars) + Proceeds(book[i], CloseOf(bars, book[i].ticker))
  {
    PricesKnownStep(book, bars, i);
    assert book[..i + 1][..i] == book[..i];
  }

  lemma TradesSnoc(a: seq<Position>, p: Position, bars: map<Ticker, Bar>, date: int)
    requires PricesKnown(a, bars) && KnownClose(bars, p.ticker)
    ensures PricesKnown(a + [p], bars)
    ensures BookEquity(a + [p], bars) == BookEquity(a, bars) + Proceeds(p, CloseOf(bars, p.ticker))
    ensures Trades(a + [p], bars, date) == Trades(a, bars, date) + [CloseTrade(p, CloseOf(bars, p.ticker), date)]
  {
    BookEquitySnoc(a, p, bars);
    assert (a + [p])[..|a|] == a;
  }

  lemma LiquidateStep(book: seq<Position>, bars: map<Ticker, Bar>, date: int, i: int)
    requires PricesKnown(book, bars) && 0 <= i < |book|
    ensures PricesKnown(book[..i], bars) && PricesKnown(book[..i + 1], bars) && KnownClose(bars, book[i].ticker)
    ensures BookEquity(book[..i + 1], bars) == BookEquity(book[..i], bars) + Proceeds(book[i], CloseOf(bars, book[i].ticker))
    ensures Trades(book[..i + 1], bars, date) == Trades(book[..i], bars, date) + [CloseTrade(book[i], CloseOf(bars, book[i].ticker), date)]
  {
    PricesKnownStep(book, bars, i);
    assert book[..i + 1] == book[..i] + [book[i]];
    TradesSnoc(book[..i], book[i], bars, date);
  }

  /** The exit decision on one more position of the book. */
  lemma ExitStep(book: seq<Position>, bars: map<Ticker, Bar>, i: int)
    requires PricesKnown(book, bars) && 0 <= i < |book|
    ensures PricesKnown(book[..i], bars) && PricesKnown(book[..i + 1], bars) && KnownClose(bars, book[i].ticker)
    ensures ShouldClose(book[i], bars) ==>
      && Closed(book[..i + 1], bars) == Closed(book[..i], bars) + [book[i]]
      && Kept(book[..i + 1], bars) == Kept(book[..i], bars)
    ensures !ShouldClose(book[i], bars) ==>
      && Closed(book[..i + 1], bars) == Closed(book[..i], bars)
      && Kept(book[..i + 1], bars) == Kept(book[..i], bars) + [book[i]]
  {
    PricesKnownStep(book, bars, i);
    assert book[..i + 1][..i] == book[..i];
  }

  /** One candidate of the admission loop while a slot is open. */
  lemma AdmitStep(cfg: LongConfig, date: int, l: Ledger, cands: seq<Candidate>, i: int)
    requires ValidLongConfig(cfg) && NonZeroPrices(cands) && 0 <= i < |cands| && |l.book| < cfg.maxPositions
    ensures NonZeroPrices(cands[i..]) && NonZeroPrices(cands[i + 1..])
    ensures TryBuy(cfg, date, l, cands[i]).None? ==>
      AdmitAll(cfg, date, l, cands[i..]) == AdmitAll(cfg, date, l, cands[i + 1..])
    ensures TryBuy(cfg, date, l, cands[i]).Some? ==>
      var p := TryBuy(cfg, date, l, cands[i]).value;
      AdmitAll(cfg, date, l, cands[i..]) == AdmitAll(cfg, date, Ledger(l.cash - p.investmentCost, l.book + [p]), cands[i + 1..])
  {
    assert cands[i..][0] == cands[i] && cands[i..][1..] == cands[i + 1..];
  }

  /** A candidate is admitted exactly as `Fill` sizes it. */
  lemma TryBuyFills(cfg: LongConfig, date: int, l: Ledger, c: Candidate, qty: real)
    requires ValidLongConfig(cfg) && |l.book| < cfg.maxPositions && c.price != 0.0
    requires qty == Quantity(cfg, l.cash, cfg.maxPositions - |l.book|, c.price)
    ensures TryBuy(cfg, date, l, c) == Fill(cfg, date, l.cash, c, qty)
  {
  }

  /** A sized entry that passes the three guards opens this position. */
  lemma FillOpens(cfg: LongConfig, date: int, cash: real, c: Candidate, qty: real)
    requires ValidLongConfig(cfg) && qty != 0.0 && Margin(cfg, qty, c.price) >= 5.0 && cash >= Margin(cfg, qty, c.price)
    ensures Fill(cfg, date, cash, c, qty) == Some(Position(c.ticker, qty, date, Margin(cfg, qty, c.price), qty * c.price))
  {
    var f := Fill(cfg, date, cash, c, qty);
    assert f.Some?;
    assert f.value.ticker == c.ticker && f.value.quantity == qty && f.value.buyDate == date;
    assert f.value.investmentCost == Margin(cfg, qty, c.price) && f.value.notional == qty * c.price;
  }

  // ---------------------------------------------------------------------
  // The loops over the book and over the ranked candidates
  // ---------------------------------------------------------------------

  /**
   * Closing one position at `close`: its cost plus its P&L is credited to
   * `cash`, and its trade record carries the business days held.
   */
  method CloseAt(p: Position, close: real, date: int, cash: real) returns (c: real, t: Trade)
    ensures c == cash + Proceeds(p, close)
    ensures t == CloseTrade(p, close, date)
  {
    var pnl := close * p.quantity - p.notional;
    c := cash + (p.investmentCost + pnl);
    var duration := BusDayCount(p.buyDate, date);
    t := Trade(p.ticker, duration, pnl, p.investmentCost, None);
  }

  /** The liquidation loop over a snapshot of the book: every position is closed at the day's close. */
  method LiquidateScan(held: seq<Position>, bars: map<Ticker, Bar>, date: int, cash: real)
    returns (c: real, trades: seq<Trade>)
    requires PricesKnown(held, bars)
    ensures c == cash + BookEquity(held, bars)
    ensures trades == Trades(held, bars, date)
  {
    c, trades := cash, [];
    for i := 0 to |held|
      invariant PricesKnown(held[..i], bars)
      invariant c == cash + BookEquity(held[..i], bars)
      invariant trades == Trades(held[..i], bars, date)
    {
      LiquidateStep(held, bars, date, i);
      var p := held[i];
      var t;
      c, t := CloseAt(p, CloseOf(bars, p.ticker), date, c);
      trades := trades + [t];
    }
    assert held[..|held|] == held;
  }

  /**
   * The exit loop over a snapshot of the book: a position whose exit flag
   * is set is closed, its proceeds credited and its trade recorded; the
   * others stay, in order.
   */
  method ExitScan(held: seq<Position>, bars: map<Ticker, Bar>, date: int, cash: real)
    returns (c: real, trades: seq<Trade>, kept: seq<Position>)
    requires PricesKnown(held, bars)
    ensures Ledger(c, kept) == ExitPhase(cash, held, bars)
    ensures trades == Trades(Closed(held, bars), bars, date)
  {
    c, trades, kept := cash, [], [];
    ghost var closed := [];
    for i := 0 to |held|
      invariant PricesKnown(held[..i], bars)
      invariant kept == Kept(held[..i], bars)
      invariant closed == Closed(held[..i], bars)
      invariant c == cash + BookEquity(closed, bars)
      invariant trades == Trades(closed, bars, date)
    {
      ExitStep(held, bars, i);
      var p := held[i];
      var signalData := bars[p.ticker];
      if ExitSignal(signalData) {
        TradesSnoc(closed, p, bars, date);
        var t;
        c, t := CloseAt(p, CloseOf(bars, p.ticker), date, c);
        trades := trades + [t];
        closed := closed + [p];
      } else {
        kept := kept + [p];
      }
    }
    assert held[..|held|] == held;
  }

  /**
   * The admission loop over the whole ranked list: it stops once the book
   * is full, sizes each candidate on the slots open at that moment, and
   * skips it when no quantity is bought, the margin is below 5.0, or the
   * cash does not cover it.
   */
  method AdmitScan(cfg: LongConfig, date: int, l: Ledger, sortedBuys: seq<Candidate>) returns (r: Ledger)
    requires ValidLongConfig(cfg) && NonZeroPrices(sortedBuys)
    ensures r == AdmitAll(cfg, date, l, sortedBuys)
  {
    var c, book := l.cash, l.book;
    for i := 0 to |sortedBuys|
      invariant AdmitAll(cfg, date, Ledger(c, book), sortedBuys[i..]) == AdmitAll(cfg, date, l, sortedBuys)
    {
      if |book| >= cfg.maxPositions {
        break;
      }
      // open_slots is positive here, so the source's `open_slots <= 0` test never fires
      var openSlots := cfg.maxPositions - |book|;
      var buy := sortedBuys[i];
      AdmitStep(cfg, date, Ledger(c, book), sortedBuys, i);
      var quantity := Quantity(cfg, c, openSlots, buy.price);
      TryBuyFills(cfg, date, Ledger(c, book), buy, quantity);
      if quantity == 0.0 {
        continue;
      }
      var actualNotional := quantity * buy.price;
      var actualCost := Margin(cfg, quantity, buy.price);
      if actualCost < 5.0 {
        continue;
      }
      if c >= actualCost {
        FillOpens(cfg, date, c, buy, quantity);
        c := c - actualCost;
        book := book + [Position(buy.ticker, quantity, date, actualCost, actualNotional)];
      }
    }
    assert sortedBuys[|sortedBuys|..] == [];
    r := Ledger(c, book);
  }

  class LongOnlySimulator {
    const cfg: LongConfig
    const universe: seq<Ticker>   // the keys of `all_historical_data`, in order
    var cash: real
    var positions: seq<Position>
    var completedTrades: seq<Trade>
    var history: seq<Snapshot>
    var halted: bool              // the loop has hit `break`

    /** The fields as a value of the specification. */
    function State(): LongState
      reads this
    {
      LongState(cash, positions, completedTrades, history, halted)
    }

    /** The locals at the top of `run_simulation`. */
    constructor (cfg: LongConfig, universe: seq<Ticker>)
      ensures this.cfg == cfg && this.universe == universe
      ensures State() == InitialState(cfg)
    {
      this.cfg := cfg;
      this.universe := universe;
      cash := cfg.initialCapital;
      positions := [];
      completedTrades := [];
      history := [];
      halted := false;
    }

    /** `total_portfolio_value` at the day's closes, before any close or open. */
    method Valuation(bars: map<Ticker, Bar>) returns (value: real)
      requires PricesKnown(positions, bars)
      ensures value == DayValue(cash, positions, bars)
    {
      var equityInPositions := 0.0;
      for i := 0 to |positions|
        invariant PricesKnown(positions[..i], bars)
        invariant equityInPositions == BookEquity(positions[..i], bars)
      {
        EquityStep(positions, bars, i);
        var p := positions[i];
        var currentPrice := CloseOf(bars, p.ticker);
        equityInPositions := equityInPositions + (p.investmentCost + Pnl(p, currentPrice));
      }
      assert positions[..|positions|] == positions;
      value := cash + equityInPositions;
    }

    /** The margin call: close every position at the day's close, record the cash and stop. */
    method Liquidate(day: Day)
      requires PricesKnown(positions, day.bars)
      modifies this
      ensures State() == MarginCallDay(old(State()), day)
    {
      var c, trades := LiquidateScan(positions, day.bars, day.date, cash);
      cash, completedTrades, positions := c, completedTrades + trades, [];
      history := history + [Snapshot(day.date, cash)];
      halted := true;
    }

    /** Close every position whose exit flag is set. */
    method ClosePositions(bars: map<Ticker, Bar>, date: int)
      requires PricesKnown(positions, bars)
      modifies this
      ensures Ledger(cash, positions) == ExitPhase(old(cash), old(positions), bars)
      ensures completedTrades == old(completedTrades) + Trades(Closed(old(positions), bars), bars, date)
      ensures State() == old(State()).(cash := cash, book := positions, trades := completedTrades)
    {
      var c, trades, kept := ExitScan(positions, bars, date, cash);
      cash, completedTrades, positions := c, completedTrades + trades, kept;
    }

    /** `potential_buys`: the unheld tickers with today's buy flag and a known close. */
    method CollectCandidates(bars: map<Ticker, Bar>) returns (cands: seq<Candidate>)
      ensures cands == Candidates(universe, bars, HeldTickers(positions))
    {
      var held := HeldTickers(positions);
      cands := [];
      for i := 0 to |universe|
        invariant cands == Candidates(universe[..i], bars, held)
      {
        var t := universe[i];
        assert universe[..i + 1][..i] == universe[..i];
        if t !in held && t in bars {
          var signalData := bars[t];
          if BuySignal(signalData) && signalData.close.Some? {
            cands := cands + [Candidate(t, signalData.rsi2.value, signalData.close.value, signalData.hv100, signalData.adx14)];
          }
        }
      }
      assert universe[..|universe|] == universe;
    }

    /** With a slot open: collect, rank, and try the whole ranked list one by one. */
    method OpenPositions(day: Day)
      requires ValidLongConfig(cfg) && EntryPricesNonZero(day.bars)
      modifies this
      ensures Ledger(cash, positions) == EntryPhase(cfg, universe, day, Ledger(old(cash), old(positions)))
      ensures State() == old(State()).(cash := cash, book := positions)
    {
      var openSlots := cfg.maxPositions - |positions|;
      if openSlots > 0 {
        var potentialBuys := CollectCandidates(day.bars);
        var sortedBuys := Sort(SortSpecOf(cfg.ranking), potentialBuys);
        RankedNonZero(SortSpecOf(cfg.ranking), universe, day.bars, HeldTickers(positions));
        var after := AdmitScan(cfg, day.date, Ledger(cash, positions), sortedBuys);
        cash, positions := after.cash, after.book;
      }
    }

    /** One date from START_DATE on. */
    method Step(day: Day)
      requires ValidLongConfig(cfg) && !halted && PricesKnown(positions, day.bars) && EntryPricesNonZero(day.bars)
      modifies this
      ensures State() == StepSpec(cfg, universe, old(State()), day)
    {
      var totalPortfolioValue := Valuation(day.bars);
      if totalPortfolioValue <= 0.0 {
        Liquidate(day);
        return;
      }
      ClosePositions(day.bars, day.date);
      OpenPositions(day);
      history := history + [Snapshot(day.date, totalPortfolioValue)];
    }

    /** The loop of `run_simulation` on a fresh simulator: skip early dates, break after a margin call. */
    method Run(days: seq<Day>)
      requires ValidLongConfig(cfg) && Distinct(universe) && Prepared(days)
      requires State() == InitialState(cfg)
      modifies this
      ensures State() == Simulate(cfg, universe, days)
    {
      InitialStateValid(cfg);
      ghost var s0 := State();
      for i := 0 to |days|
        invariant !halted && ValidState(cfg, State()) && Prepared(days[i..])
        invariant i < |days| ==> PricesKnown(positions, days[i].bars)
        invariant RunFrom(cfg, universe, State(), days[i..]) == RunFrom(cfg, universe, s0, days)
      {
        ghost var before := State();
        if days[i].date < cfg.startDate {
          if i + 1 < |days| {
            PreparedLater(days[i..], positions);
            assert days[i..][1..] == days[i + 1..];
          }
          continue;
        }
        Step(days[i]);
        StepPreservesValid(cfg, universe, before, days[i]);
        StepConservesValue(cfg, universe, before, days[i]);
        if halted {
          assert RunFrom(cfg, universe, before, days[i..]) == State();
          break;
        }
        if i + 1 < |days| {
          PreparedLater(days[i..], positions);
          assert days[i..][1..] == days[i + 1..];
        } else {
          assert RunFrom(cfg, universe, before, days[i..]) == State();
        }
      }
    }
  }
}
