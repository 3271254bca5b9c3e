/**
 * `run_simulation` of backtest-switching.py as a simulator object whose
 * fields are the loop's mutable locals (`cash`, `positions`,
 * `completed_trades`, `portfolio_value_history`, `strategy_type`,
 * `strategy_type_history`). Each phase of a date is a method that updates
 * the fields in place and is proved against the phase function of
 * `SwitchingRules`; `Step` is one date and `Run` the whole loop.
 */
module SwitchingBacktest {
  import opened MarketData
  import opened Calendar
  import opened Ranking
  import opened SwitchingRules
  import opened SwitchingProofs
  import opened SwitchingRun

  // ---------------------------------------------------------------------
  // One more position of the book: how the specification functions grow
  // ---------------------------------------------------------------------

  lemma AccrueStep(book: seq<Position>, rate: real, i: int)
    requires 0 <= i < |book|
    ensures Accrue(book[..i + 1], rate)
         == Accrue(book[..i], rate) + [book[i].(accumulatedSwap := book[i].accumulatedSwap + DailySwap(book[i], rate))]
  {
    assert book[..i + 1][..i] == book[..i];
  }

  lemma PricesKnownStep(book: seq<Position>, bars: map<Ticker, Bar>, i: int)
    requires PricesKnown(book, bars) && 0 <= i < |book|
    ensures PricesKnown(book[..i], bars) && PricesKnown(book[..i + 1], bars)
    ensures KnownClose(bars, book[i].ticker)
  {
    assert forall k :: 0 <= k <= i ==> book[..i + 1][k] == book[k];
  }

  lemma EquityStep(book: seq<Position>, bars: map<Ticker, Bar>, i: int)
    requires PricesKnown(book, bars) && 0 <= i < |book|
    ensures PricesKnown(book[..i], bars) && PricesKnown(book[..i + 1], bars)
    ensures BookEquity(book[..i + 1], bars) == BookEquity(book[..i], bars) + Equity(book[i], CloseOf(bars, book[i].ticker))
  {
    PricesKnownStep(book, bars, i);
    assert book[..i + 1][..i] == book[..i];
  }

  lemma TradesSnoc(a: seq<Position>, p: Position, bars: map<Ticker, Bar>, date: int, reason: Option<ExitReason>)
    requires PricesKnown(a, bars) && KnownClose(bars, p.ticker)
    ensures PricesKnown(a + [p], bars)
    ensures Trades(a + [p], bars, date, reason) == Trades(a, bars, date, reason) + [CloseTrade(p, CloseOf(bars, p.ticker), date, reason)]
  {
    PricesKnownSnoc(a, p, bars);
    assert (a + [p])[..|a|] == a;
  }

  lemma LiquidateStep(book: seq<Position>, bars: map<Ticker, Bar>, date: int, i: int)
    requires PricesKnown(book, bars) && 0 <= i < |book|
    ensures PricesKnown(book[..i], bars) && PricesKnown(book[..i + 1], bars) && KnownClose(bars, book[i].ticker)
    ensures TotalProceeds(book[..i + 1], bars) == TotalProceeds(book[..i], bars) + Proceeds(book[i], CloseOf(bars, book[i].ticker))
    ensures Trades(book[..i + 1], bars, date, Some(MarginCall))
         == Trades(book[..i], bars, date, Some(MarginCall)) + [CloseTrade(book[i], CloseOf(bars, book[i].ticker), date, Some(MarginCall))]
  {
    PricesKnownStep(book, bars, i);
    assert book[..i + 1] == book[..i] + [book[i]];
    TotalProceedsSnoc(book[..i], book[i], bars);
    TradesSnoc(book[..i], book[i], bars, date, Some(MarginCall));
  }

  /** The exit decision on one more position of the book. */
  lemma ExitStep(cfg: Config, book: seq<Position>, bars: map<Ticker, Bar>, date: int, i: int)
    requires PricesKnown(book, bars) && 0 <= i < |book|
    ensures PricesKnown(book[..i], bars) && PricesKnown(book[..i + 1], bars) && KnownClose(bars, book[i].ticker)
    ensures ShouldClose(cfg, book[i], bars, date) ==>
      && Closed(cfg, book[..i + 1], bars, date) == Closed(cfg, book[..i], bars, date) + [book[i]]
      && Kept(cfg, book[..i + 1], bars, date) == Kept(cfg, book[..i], bars, date)
    ensures !ShouldClose(cfg, book[i], bars, date) ==>
      && Closed(cfg, book[..i + 1], bars, date) == Closed(cfg, book[..i], bars, date)
      && Kept(cfg, book[..i + 1], bars, date) == Kept(cfg, book[..i], bars, date) + [book[i]]
  {
    PricesKnownStep(book, bars, i);
    assert book[..i + 1][..i] == book[..i];
  }

  /** Closing one more position adds its proceeds and its trade. */
  lemma CloseStep(closed: seq<Position>, p: Position, bars: map<Ticker, Bar>, date: int)
    requires PricesKnown(closed, bars) && KnownClose(bars, p.ticker)
    ensures PricesKnown(closed + [p], bars)
    ensures TotalProceeds(closed + [p], bars) == TotalProceeds(closed, bars) + Proceeds(p, CloseOf(bars, p.ticker))
    ensures Trades(closed + [p], bars, date, None) == Trades(closed, bars, date, None) + [CloseTrade(p, CloseOf(bars, p.ticker), date, None)]
  {
    TotalProceedsSnoc(closed, p, bars);
    TradesSnoc(closed, p, bars, date, None);
  }

  /** One candidate of the admission loop. */
  lemma AdmitStep(cfg: Config, regime: Regime, date: int, l: Ledger, cands: seq<Candidate>, i: int)
    requires ValidConfig(cfg) && 0 <= i < |cands| && OpenSlots(cfg, l.book) != 0
    ensures TryAdmit(cfg, regime, date, l, cands[i]).None? ==>
      AdmitAll(cfg, regime, date, l, cands[i..]) == AdmitAll(cfg, regime, date, l, cands[i + 1..])
    ensures TryAdmit(cfg, regime, date, l, cands[i]).Some? ==>
      var p := TryAdmit(cfg, regime, date, l, cands[i]).value;
      AdmitAll(cfg, regime, date, l, cands[i..])
        == AdmitAll(cfg, regime, date, Ledger(l.cash - p.investmentCost, l.book + [p]), cands[i + 1..])
  {
    assert cands[i..][0] == cands[i] && cands[i..][1..] == cands[i + 1..];
  }

  /** The loop of step 1: one day's financing added to each position, in book order. */
  method AccrueScan(held: seq<Position>, rate: real) returns (book: seq<Position>)
    ensures book == Accrue(held, rate)
  {
    book := [];
    for i := 0 to |held|
      invariant book == Accrue(held[..i], rate)
    {
      var p := held[i];
      book := book + [p.(accumulatedSwap := p.accumulatedSwap + DailySwap(p, rate))];
      AccrueStep(held, rate, i);
    }
    assert held[..|held|] == held;
  }

  /**
   * Closing one position at `close`: its cost plus the unrealised profit
   * less the accumulated swap is credited to `cash`, and its trade record
   * carries the business days held.
   */
  method CloseAt(p: Position, close: real, date: int, reason: Option<ExitReason>, cash: real)
    returns (c: real, t: Trade)
    ensures c == cash + Proceeds(p, close)
    ensures t == CloseTrade(p, close, date, reason)
  {
    var pnl := Pnl(p, close) - p.accumulatedSwap;
    c := cash + (p.investmentCost + pnl);
    var duration := BusDayCount(p.buyDate, date);
    t := Trade(p.ticker, duration, pnl, p.investmentCost, reason);
  }

  /**
   * The loop of step 3 over a snapshot of the book: every position is
   * closed at the day's close, its proceeds credited to `cash` and its
   * trade recorded as a margin call.
   */
  method LiquidateScan(held: seq<Position>, bars: map<Ticker, Bar>, date: int, cash: real)
    returns (c: real, trades: seq<Trade>)
    requires PricesKnown(held, bars)
    ensures c == cash + TotalProceeds(held, bars)
    ensures trades == Trades(held, bars, date, Some(MarginCall))
  {
    c, trades := cash, [];
    for i := 0 to |held|
      invariant PricesKnown(held[..i], bars)
      invariant c == cash + TotalProceeds(held[..i], bars)
      invariant trades == Trades(held[..i], bars, date, Some(MarginCall))
    {
      LiquidateStep(held, bars, date, i);
      var p := held[i];
      var t;
      c, t := CloseAt(p, CloseOf(bars, p.ticker), date, Some(MarginCall), c);
      trades := trades + [t];
    }
    assert held[..|held|] == held;
  }

  /**
   * The loop of step 4 over a snapshot of the book: a position whose own
   * strategy's exit flag or the time stop fires is closed, its proceeds
   * credited to `cash` and its trade recorded; the others stay, in order.
   */
  method ExitScan(cfg: Config, held: seq<Position>, bars: map<Ticker, Bar>, date: int, cash: real)
    returns (c: real, trades: seq<Trade>, kept: seq<Position>)
    requires PricesKnown(held, bars)
    ensures Ledger(c, kept) == ExitPhase(cfg, cash, held, bars, date)
    ensures trades == Trades(Closed(cfg, held, bars, date), bars, date, None)
  {
    c, trades, kept := cash, [], [];
    ghost var closed := [];
    for i := 0 to |held|
      invariant PricesKnown(held[..i], bars)
      invariant kept == Kept(cfg, held[..i], bars, date)
      invariant closed == Closed(cfg, held[..i], bars, date)
      invariant c == cash + TotalProceeds(closed, bars)
      invariant trades == Trades(closed, bars, date, None)
    {
      ExitStep(cfg, held, bars, date, i);
      var p := held[i];
      var signalData := bars[p.ticker];
      var timeStopTriggered := false;
      if cfg.timeStop > 0 {
        var daysHeld := BusDayCount(p.buyDate, date);
        if daysHeld >= cfg.timeStop {
          timeStopTriggered := true;
        }
      }
      if ExitSignal(signalData, p.strategy) || timeStopTriggered {
        CloseStep(closed, p, bars, date);
        var t;
        c, t := CloseAt(p, CloseOf(bars, p.ticker), date, None, c);
        trades := trades + [t];
        closed := closed + [p];
      } else {
        kept := kept + [p];
      }
    }
    assert held[..|held|] == held;
  }

  /** A candidate with a positive price is admitted exactly as `Fill` sizes it. */
  lemma TryAdmitFills(cfg: Config, regime: Regime, date: int, l: Ledger, c: Candidate, qty: int)
    requires ValidConfig(cfg) && OpenSlots(cfg, l.book) != 0 && c.price > 0.0
    requires qty == Quantity(cfg, l.cash, OpenSlots(cfg, l.book), c.price)
    ensures TryAdmit(cfg, regime, date, l, c) == Fill(cfg, regime, date, l.cash, c, qty)
  {
  }

  /** A sized entry that passes the three guards opens this position. */
  lemma FillOpens(cfg: Config, regime: Regime, date: int, cash: real, c: Candidate, qty: int)
    requires ValidConfig(cfg) && qty > 0 && Margin(cfg, qty, c.price) >= 5.0 && cash >= Margin(cfg, qty, c.price)
    ensures Fill(cfg, regime, date, cash, c, qty)
         == Some(Position(c.ticker, qty as real, date, Margin(cfg, qty, c.price), qty as real * c.price, 0.0, regime, TypeFor(regime)))
  {
    var m := Margin(cfg, qty, c.price);
    assert !(qty <= 0 || m < 5.0 || cash < m);
    var f := Fill(cfg, regime, date, cash, c, qty);
    assert f.Some?;
    assert f.value.ticker == c.ticker;
    assert f.value.quantity == qty as real;
    assert f.value.buyDate == date;
    assert f.value.investmentCost == m;
    assert f.value.notional == qty as real * c.price;
    assert f.value.accumulatedSwap == 0.0;
    assert f.value.strategy == regime;
    assert f.value.positionType == TypeFor(regime);
  }

  /**
   * The admission loop of step 6 over the first `open_slots` ranked
   * candidates: the slots are recounted before each one, the loop stops
   * when none is left, and a candidate is skipped when its price is not
   * positive, no whole unit is bought, the margin is below 5.0, or the cash
   * does not cover it.
   */
  method AdmitScan(cfg: Config, regime: Regime, date: int, l: Ledger, pre: seq<Candidate>) returns (r: Ledger)
    requires ValidConfig(cfg)
    ensures r == AdmitAll(cfg, regime, date, l, pre)
  {
    var c, book := l.cash, l.book;
    for i := 0 to |pre|
      invariant AdmitAll(cfg, regime, date, Ledger(c, book), pre[i..]) == AdmitAll(cfg, regime, date, l, pre)
    {
      var currentOpenSlots := cfg.maxPositions - |book|;
      if currentOpenSlots == 0 {
        break;
      }
      var buy := pre[i];
      AdmitStep(cfg, regime, date, Ledger(c, book), pre, i);
      if buy.price <= 0.0 {
        continue;
      }
      var qty := Quantity(cfg, c, currentOpenSlots, buy.price);
      TryAdmitFills(cfg, regime, date, Ledger(c, book), buy, qty);
      if qty <= 0 {
        continue;
      }
      var actualNotional := qty as real * buy.price;
      var actualCost := Margin(cfg, qty, buy.price);
      if actualCost < 5.0 {
        continue;
      }
      if c >= actualCost {
        FillOpens(cfg, regime, date, c, buy, qty);
        c := c - actualCost;
        book := book + [Position(buy.ticker, qty as real, date, actualCost, actualNotional, 0.0, regime, TypeFor(regime))];
      }
    }
    assert pre[|pre|..] == [];
    r := Ledger(c, book);
  }

  class Simulator {
    const cfg: Config
    const universe: seq<Ticker>   // the keys of `all_historical_data`, in order
    var cash: real
    var positions: seq<Position>
    var completedTrades: seq<Trade>
    var history: seq<Snapshot>
    var strategy: Regime
    var strategyHistory: seq<RegimeChange>
    var halted: bool              // the loop has hit `break`

    /** The fields as a value of the specification. */
    function State(): SimState
      reads this
    {
      SimState(cash, positions, completedTrades, history, strategy, strategyHistory, halted)
    }

    /** The locals at the top of `run_simulation`. */
    constructor (cfg: Config, universe: seq<Ticker>, initial: Regime)
      ensures this.cfg == cfg && this.universe == universe
      ensures State() == InitialState(cfg, initial)
    {
      this.cfg := cfg;
      this.universe := universe;
      cash := cfg.initialCapital;
      positions := [];
      completedTrades := [];
      history := [];
      strategy := initial;
      strategyHistory := [];
      halted := false;
    }

    /** Step 1: add the day's financing to every open position. */
    method AccrueSwap(m: MarketSample)
      modifies this
      ensures State() == old(State()).(book := AccruedBook(cfg, old(positions), m))
    {
      if cfg.leverage > 1.0 {
        positions := AccrueScan(positions, SwapRateAnnual(m));
      }
    }

    /** Step 2: `total_portfolio_value` at the day's closes. */
    method Valuation(bars: map<Ticker, Bar>) returns (value: real)
      requires PricesKnown(positions, bars)
      ensures value == DayValue(cash, positions, bars)
    {
      var equity := 0.0;
      for i := 0 to |positions|
        invariant PricesKnown(positions[..i], bars)
        invariant equity == BookEquity(positions[..i], bars)
      {
        EquityStep(positions, bars, i);
        var p := positions[i];
        var currentPrice := CloseOf(bars, p.ticker);
        equity := equity + (p.investmentCost + Pnl(p, currentPrice));
      }
      assert positions[..|positions|] == positions;
      value := cash + equity;
    }

    /** Step 3: close every position at the day's close, record the value and stop. */
    method Liquidate(day: Day)
      requires PricesKnown(positions, day.bars)
      modifies this
      ensures State() == MarginCallDay(old(State()), day, old(positions))
    {
      var c, trades := LiquidateScan(positions, day.bars, day.date, cash);
      cash, completedTrades, positions := c, completedTrades + trades, [];
      history := history + [Snapshot(day.date, cash)];
      halted := true;
    }

    /** Step 4: close what its strategy's exit flag or the time stop fires on. */
    method ClosePositions(bars: map<Ticker, Bar>, date: int)
      requires PricesKnown(positions, bars)
      modifies this
      ensures Ledger(cash, positions) == ExitPhase(cfg, old(cash), old(positions), bars, date)
      ensures completedTrades == old(completedTrades) + Trades(Closed(cfg, old(positions), bars, date), bars, date, None)
      ensures State() == old(State()).(cash := cash, book := positions, trades := completedTrades)
    {
      var c, trades, kept := ExitScan(cfg, positions, bars, date, cash);
      cash, completedTrades, positions := c, completedTrades + trades, kept;
    }

    /** Step 5: the hysteresis switch, logging every real change. */
    method SwitchRegime(m: MarketSample, date: int)
      modifies this
      ensures strategy == NextRegime(cfg, old(strategy), m)
      ensures strategyHistory == RecordChange(old(strategyHistory), date, old(strategy), strategy)
      ensures State() == old(State()).(regime := strategy, regimeHistory := strategyHistory)
    {
      var hasSp500 := m.spClose.Some? && m.spSma200.Some?;
      var bearish := hasSp500 && m.spClose.value < m.spSma200.value;
      var strong := hasSp500 && m.spClose.value > m.spSma200.value * cfg.entryThreshold;
      var previous := strategy;
      if strategy == Normal {
        var vixTrigger := cfg.vixProtection > 0.0 && m.vix.Some? && m.vix.value > cfg.vixProtection;
        if vixTrigger || bearish {
          strategy := Inverse;
        }
      } else {
        var vixOk := cfg.vixProtection == 0.0 || (m.vix.Some? && m.vix.value < cfg.vixProtection * 0.8);
        if vixOk && strong {
          strategy := Normal;
        }
      }
      if strategy != previous {
        strategyHistory := strategyHistory + [RegimeChange(date, previous, strategy)];
      }
    }

    /** `potential_buys`: the unheld tickers with today's buy flag and a known close. */
    method CollectCandidates(bars: map<Ticker, Bar>) returns (cands: seq<Candidate>)
      ensures cands == Candidates(universe, bars, HeldTickers(positions), strategy)
    {
      var held := HeldTickers(positions);
      cands := [];
      for i := 0 to |universe|
        invariant cands == Candidates(universe[..i], bars, held, strategy)
      {
        var t := universe[i];
        assert universe[..i + 1][..i] == universe[..i];
        if t in held {
          continue;
        }
        if t in bars && BuySignal(bars[t], strategy) && bars[t].close.Some? {
          var row := bars[t];
          cands := cands + [Candidate(t, row.rsi2.value, row.close.value, row.hv100, row.adx14)];
        }
      }
      assert universe[..|universe|] == universe;
    }

    /** Step 6: gate, collect, rank, and admit the first `open_slots` candidates one by one. */
    method OpenPositions(day: Day)
      requires ValidConfig(cfg)
      modifies this
      ensures Ledger(cash, positions) == EntryPhase(cfg, universe, day, strategy, Ledger(old(cash), old(positions)))
      ensures State() == old(State()).(cash := cash, book := positions)
    {
      var openSlots := cfg.maxPositions - |positions|;
      var canEnter := false;
      if strategy == Normal {
        canEnter := Sp500Strong(cfg, day.market);
      } else {
        canEnter := Sp500BelowThreshold(cfg, day.market);
      }
      if openSlots > 0 && canEnter {
        var potential := CollectCandidates(day.bars);
        var sorted := Sort(SortSpecFor(cfg.ranking, strategy), potential);
        var pre := sorted[..Min(openSlots, |sorted|)];
        var after := AdmitScan(cfg, strategy, day.date, Ledger(cash, positions), pre);
        cash, positions := after.cash, after.book;
      }
    }

    /** One date of the loop: steps 1 to 8. */
    method Step(day: Day)
      requires ValidConfig(cfg) && !halted && PricesKnown(positions, day.bars)
      modifies this
      ensures State() == StepSpec(cfg, universe, old(State()), day)
    {
      AccruedBookKeepsValue(cfg, positions, day.market, day.bars);
      AccrueSwap(day.market);
      var totalPortfolioValue := Valuation(day.bars);
      if totalPortfolioValue <= 0.0 {
        Liquidate(day);
        return;
      }
      ClosePositions(day.bars, day.date);
      SwitchRegime(day.market, day.date);
      OpenPositions(day);
      history := history + [Snapshot(day.date, totalPortfolioValue)];
    }

    /** `dates_list`: the master index from START_DATE on. */
    method DatesFrom(days: seq<Day>) returns (dates: seq<Day>)
      ensures dates == OnOrAfter(days, cfg.startDate)
    {
      dates := [];
      for i := 0 to |days|
        invariant dates == OnOrAfter(days[..i], cfg.startDate)
      {
        assert days[..i + 1][..i] == days[..i];
        if days[i].date >= cfg.startDate {
          dates := dates + [days[i]];
        }
      }
      assert days[..|days|] == days;
    }

    /** The loop of `run_simulation` on a fresh simulator, breaking after a margin call. */
    method Run(days: seq<Day>)
      requires ValidConfig(cfg) && Distinct(universe) && ForwardFilled(days)
      requires State() == InitialState(cfg, strategy)
      modifies this
      ensures State() == Simulate(cfg, universe, old(strategy), days)
    {
      var dates := DatesFrom(days);
      InitialStateValid(cfg, strategy);
      OnOrAfterForwardFilled(days, cfg.startDate);
      ghost var s0 := State();
      for i := 0 to |dates|
        invariant !halted && ValidState(cfg, State()) && ForwardFilled(dates[i..])
        invariant i < |dates| ==> PricesKnown(positions, dates[i].bars)
        invariant RunFrom(cfg, universe, State(), dates[i..]) == RunFrom(cfg, universe, s0, dates)
      {
        ghost var before := State();
        Step(dates[i]);
        StepPreservesValid(cfg, universe, before, dates[i]);
        StepConservesValue(cfg, universe, before, dates[i]);
        if halted {
          assert RunFrom(cfg, universe, before, dates[i..]) == State();
          break;
        }
        if i + 1 < |dates| {
          ForwardFilledLater(dates[i..], positions);
          assert dates[i..][1..] == dates[i + 1..];
        } else {
          assert RunFrom(cfg, universe, before, dates[i..]) == State();
        }
      }
    }
  }
}
