/**
 * What the end-of-day rules of the regime-switching simulator promise:
 * value bookkeeping of accrual, valuation, liquidation and closes; the
 * hysteresis of the regime switch; exactness of the candidate list; the
 * bounds and the conservation of admission; and the state invariant that
 * every day keeps.
 */
module SwitchingProofs {
  import opened MarketData
  import opened Calendar
  import opened Ranking
  import opened SwitchingRules

  // ---------------------------------------------------------------------
  // Unfolding the last-element recursions on an appended position
  // ---------------------------------------------------------------------

  lemma PricesKnownSnoc(a: seq<Position>, p: Position, bars: map<Ticker, Bar>)
    ensures PricesKnown(a + [p], bars) <==> PricesKnown(a, bars) && KnownClose(bars, p.ticker)
  {
    var b := a + [p];
    assert forall i :: 0 <= i < |a| ==> b[i] == a[i];
    assert b[|a|] == p;
  }

  lemma BookEquitySnoc(a: seq<Position>, p: Position, bars: map<Ticker, Bar>)
    requires PricesKnown(a, bars) && KnownClose(bars, p.ticker)
    ensures PricesKnown(a + [p], bars)
    ensures BookEquity(a + [p], bars) == BookEquity(a, bars) + Equity(p, CloseOf(bars, p.ticker))
  {
    PricesKnownSnoc(a, p, bars);
    assert (a + [p])[..|a|] == a;
  }

  lemma TotalProceedsSnoc(a: seq<Position>, p: Position, bars: map<Ticker, Bar>)
    requires PricesKnown(a, bars) && KnownClose(bars, p.ticker)
    ensures PricesKnown(a + [p], bars)
    ensures TotalProceeds(a + [p], bars) == TotalProceeds(a, bars) + Proceeds(p, CloseOf(bars, p.ticker))
  {
    PricesKnownSnoc(a, p, bars);
    assert (a + [p])[..|a|] == a;
  }

  lemma TotalSwapSnoc(a: seq<Position>, p: Position)
    ensures TotalSwap(a + [p]) == TotalSwap(a) + p.accumulatedSwap
  {
    assert (a + [p])[..|a|] == a;
  }

  lemma PricesKnownPrefix(book: seq<Position>, bars: map<Ticker, Bar>)
    requires PricesKnown(book, bars) && book != []
    ensures PricesKnown(book[..|book| - 1], bars) && KnownClose(bars, book[|book| - 1].ticker)
  {
    assert book == book[..|book| - 1] + [book[|book| - 1]];
    PricesKnownSnoc(book[..|book| - 1], book[|book| - 1], bars);
  }

  // ---------------------------------------------------------------------
  // 1. Financing accrual
  // ---------------------------------------------------------------------

  /**
   * Accrual changes only the financing: the tickers, and so the known
   * closes, and the equity of the book (which does not deduct financing)
   * stay as they were, while the total financing grows by one day's swap of
   * every position.
   */
  lemma AccrueKeepsEquity(book: seq<Position>, rate: real, bars: map<Ticker, Bar>)
    requires PricesKnown(book, bars)
    ensures PricesKnown(Accrue(book, rate), bars)
    ensures BookEquity(Accrue(book, rate), bars) == BookEquity(book, bars)
  {
    var r := Accrue(book, rate);
    AccruePricesKnown(book, rate, bars);
    forall i | 0 <= i < |book|
      ensures Equity(r[i], CloseOf(bars, r[i].ticker)) == Equity(book[i], CloseOf(bars, book[i].ticker))
    {
      AccrueAt(book, rate, i);
      EquityIgnoresSwap(book[i], CloseOf(bars, book[i].ticker), r[i].accumulatedSwap);
    }
    SameEquity(r, book, bars);
  }

  /** Two books whose positions have pairwise equal equity have equal equity. */
  lemma {:induction false} SameEquity(a: seq<Position>, b: seq<Position>, bars: map<Ticker, Bar>)
    requires |a| == |b| && PricesKnown(a, bars) && PricesKnown(b, bars)
    requires forall i :: 0 <= i < |a| ==>
      Equity(a[i], CloseOf(bars, a[i].ticker)) == Equity(b[i], CloseOf(bars, b[i].ticker))
    ensures BookEquity(a, bars) == BookEquity(b, bars)
  {
    if a != [] {
      var n := |a| - 1;
      assert PricesKnown(a[..n], bars) && PricesKnown(b[..n], bars);
      assert forall i :: 0 <= i < n ==> a[..n][i] == a[i] && b[..n][i] == b[i];
      SameEquity(a[..n], b[..n], bars);
    }
  }

  lemma EquityIgnoresSwap(p: Position, price: real, swap: real)
    ensures Equity(p.(accumulatedSwap := swap), price) == Equity(p, price)
  {
  }

  lemma AccruePricesKnown(book: seq<Position>, rate: real, bars: map<Ticker, Bar>)
    requires PricesKnown(book, bars)
    ensures PricesKnown(Accrue(book, rate), bars)
  {
    var r := Accrue(book, rate);
    forall i | 0 <= i < |r| ensures KnownClose(bars, r[i].ticker) {
      assert r[i].ticker == book[i].ticker;
    }
  }

  /**
   * Accrual adds exactly one day's financing to every position and changes
   * no other field of any position.
   */
  lemma {:induction false} AccrueAt(book: seq<Position>, rate: real, i: int)
    requires 0 <= i < |book|
    ensures Accrue(book, rate)[i] == book[i].(accumulatedSwap := book[i].accumulatedSwap + DailySwap(book[i], rate))
  {
    var pre := book[..|book| - 1];
    if i < |pre| {
      AccrueAt(pre, rate, i);
      assert Accrue(book, rate)[i] == Accrue(pre, rate)[i];
    }
  }

  /** Sum of one day's financing over the book. */
  function DailySwapTotal(book: seq<Position>, rate: real): real {
    if book == [] then 0.0
    else DailySwapTotal(book[..|book| - 1], rate) + DailySwap(book[|book| - 1], rate)
  }

  lemma {:induction false} AccrueAddsDailySwap(book: seq<Position>, rate: real)
    ensures TotalSwap(Accrue(book, rate)) == TotalSwap(book) + DailySwapTotal(book, rate)
  {
    if book != [] {
      var pre, p := book[..|book| - 1], book[|book| - 1];
      AccrueAddsDailySwap(pre, rate);
      TotalSwapSnoc(Accrue(pre, rate), p.(accumulatedSwap := p.accumulatedSwap + DailySwap(p, rate)));
    }
  }

  /** With leverage 1 or less no financing is charged at all; holds by unfolding `AccruedBook`. */
  lemma UnleveragedNoFinancing(cfg: Config, book: seq<Position>, m: MarketSample)
    requires cfg.leverage <= 1.0
    ensures AccruedBook(cfg, book, m) == book
  {
  }

  /** The daily rate: the Fed rate in percent (4.0 when missing) plus 2.5%, over 360 days; holds by definition. */
  lemma DailySwapRate(p: Position, m: MarketSample)
    ensures DailySwap(p, SwapRateAnnual(m)) ==
      p.notional * ((if m.fedRate.Some? then m.fedRate.value else 4.0) / 100.0 + 0.025) / 360.0
  {
  }

  // ---------------------------------------------------------------------
  // 3. Margin call: liquidation proceeds
  // ---------------------------------------------------------------------

  /** Closing every position credits the book's equity less all financing. */
  lemma {:induction false} ProceedsAreEquityLessSwap(ps: seq<Position>, bars: map<Ticker, Bar>)
    requires PricesKnown(ps, bars)
    ensures TotalProceeds(ps, bars) == BookEquity(ps, bars) - TotalSwap(ps)
  {
    if ps != [] {
      PricesKnownPrefix(ps, bars);
      ProceedsAreEquityLessSwap(ps[..|ps| - 1], bars);
    }
  }

  /**
   * On a day whose value is not positive every position is closed at the
   * close with one MARGIN_CALL trade each, the book ends empty, the run is
   * halted and the last snapshot is the resulting cash: the day's value
   * less all accumulated financing.
   */
  lemma MarginCallLiquidates(cfg: Config, universe: seq<Ticker>, s: SimState, day: Day)
    requires ValidConfig(cfg) && PricesKnown(s.book, day.bars)
    requires DayValue(s.cash, AccruedBook(cfg, s.book, day.market), day.bars) <= 0.0
    ensures
      var r := StepSpec(cfg, universe, s, day);
      var book1 := AccruedBook(cfg, s.book, day.market);
      && r.halted && r.book == []
      && |r.trades| == |s.trades| + |s.book|
      && r.trades[..|s.trades|] == s.trades
      && (forall i :: |s.trades| <= i < |r.trades| ==>
            r.trades[i] == CloseTrade(book1[i - |s.trades|], CloseOf(day.bars, book1[i - |s.trades|].ticker), day.date, Some(MarginCall)))
      && r.history == s.history + [Snapshot(day.date, r.cash)]
      && r.cash == DayValue(s.cash, book1, day.bars) - TotalSwap(book1)
  {
    ProceedsAreEquityLessSwap(AccruedBook(cfg, s.book, day.market), day.bars);
  }

  // ---------------------------------------------------------------------
  // 4. Exits
  // ---------------------------------------------------------------------

  /**
   * The exit step splits the book: a position stays exactly when neither its
   * own strategy's exit flag nor the time stop fires, and closes exactly
   * when one does; nothing is lost or duplicated.
   */
  lemma {:induction false} ExitPartition(cfg: Config, book: seq<Position>, bars: map<Ticker, Bar>, date: int)
    requires PricesKnown(book, bars)
    ensures |Kept(cfg, book, bars, date)| + |Closed(cfg, book, bars, date)| == |book|
    ensures forall p :: p in Kept(cfg, book, bars, date) <==> p in book && !ShouldClose(cfg, p, bars, date)
    ensures forall p :: p in Closed(cfg, book, bars, date) <==> p in book && ShouldClose(cfg, p, bars, date)
  {
    if book != [] {
      var pre, p := book[..|book| - 1], book[|book| - 1];
      PricesKnownPrefix(book, bars);
      ExitPartition(cfg, pre, bars, date);
      assert book == pre + [p];
    }
  }

  /**
   * The closes move value from the book to cash less the closed positions'
   * financing: the book's equity splits between the kept and the closed
   * positions, and the closed ones credit their equity less their swap.
   */
  lemma {:induction false} ExitSplitsEquity(cfg: Config, book: seq<Position>, bars: map<Ticker, Bar>, date: int)
    requires PricesKnown(book, bars)
    ensures BookEquity(book, bars) ==
      BookEquity(Kept(cfg, book, bars, date), bars) + BookEquity(Closed(cfg, book, bars, date), bars)
  {
    if book != [] {
      var pre, p := book[..|book| - 1], book[|book| - 1];
      PricesKnownPrefix(book, bars);
      ExitSplitsEquity(cfg, pre, bars, date);
      var kept, closed := Kept(cfg, pre, bars, date), Closed(cfg, pre, bars, date);
      if ShouldClose(cfg, p, bars, date) {
        assert Kept(cfg, book, bars, date) == kept;
        assert Closed(cfg, book, bars, date) == closed + [p];
        BookEquitySnoc(closed, p, bars);
      } else {
        assert Kept(cfg, book, bars, date) == kept + [p];
        assert Closed(cfg, book, bars, date) == closed;
        BookEquitySnoc(kept, p, bars);
      }
    }
  }

  /** After the closes, cash plus the kept book is the day's value less the closed swap. */
  lemma ExitConservesValue(cfg: Config, cash: real, book: seq<Position>, bars: map<Ticker, Bar>, date: int)
    requires PricesKnown(book, bars)
    ensures cash + TotalProceeds(Closed(cfg, book, bars, date), bars) + BookEquity(Kept(cfg, book, bars, date), bars)
      == DayValue(cash, book, bars) - TotalSwap(Closed(cfg, book, bars, date))
  {
    ExitSplitsEquity(cfg, book, bars, date);
    ProceedsAreEquityLessSwap(Closed(cfg, book, bars, date), bars);
  }

  /** The reported reason is TIME_STOP exactly when the time stop fired; otherwise the own exit flag did. */
  lemma ReasonOfAClose(cfg: Config, p: Position, bars: map<Ticker, Bar>, date: int)
    requires p.ticker in bars && ShouldClose(cfg, p, bars, date)
    ensures ReportedReason(cfg, p, date) == TimeStop <==> TimeStopFired(cfg, p, date)
    ensures ReportedReason(cfg, p, date) != TimeStop ==>
      ReportedReason(cfg, p, date) == ExitSignalOf(p.strategy) && ExitSignal(bars[p.ticker], p.strategy)
  {
  }

  /** A kept position passed the time stop test: fewer than TIME_STOP business days held. */
  lemma KeptWithinTimeStop(cfg: Config, book: seq<Position>, bars: map<Ticker, Bar>, date: int, p: Position)
    requires PricesKnown(book, bars) && cfg.timeStop > 0 && p in Kept(cfg, book, bars, date)
    ensures BusDayCount(p.buyDate, date) < cfg.timeStop
    ensures !ExitSignal(bars[p.ticker], p.strategy)
  {
  }

  // ---------------------------------------------------------------------
  // 5. Regime switch
  // ---------------------------------------------------------------------

  /** NORMAL turns INVERSE exactly on a VIX spike above the ceiling or a close below SMA 200; holds by unfolding `NextRegime`. */
  lemma NormalToInverse(cfg: Config, m: MarketSample)
    ensures NextRegime(cfg, Normal, m) == Inverse <==>
      (cfg.vixProtection > 0.0 && m.vix.Some? && m.vix.value > cfg.vixProtection)
      || (m.spClose.Some? && m.spSma200.Some? && m.spClose.value < m.spSma200.value)
  {
  }

  /** INVERSE turns NORMAL exactly when VIX is calm (or ignored) and the S&P 500 is strong; holds by unfolding `NextRegime`. */
  lemma InverseToNormal(cfg: Config, m: MarketSample)
    ensures NextRegime(cfg, Inverse, m) == Normal <==>
      (cfg.vixProtection == 0.0 || (m.vix.Some? && m.vix.value < 0.8 * cfg.vixProtection))
      && m.spClose.Some? && m.spSma200.Some? && m.spClose.value > m.spSma200.value * cfg.entryThreshold
  {
  }

  /** Missing S&P 500 data: only a VIX spike moves NORMAL, and INVERSE never leaves. */
  lemma MissingSp500(cfg: Config, m: MarketSample)
    requires m.spClose.None? || m.spSma200.None?
    ensures NextRegime(cfg, Normal, m) == (if VixTrigger(cfg, m) then Inverse else Normal)
    ensures NextRegime(cfg, Inverse, m) == Inverse
  {
  }

  /** Missing VIX with the protection on blocks the way back to NORMAL. */
  lemma MissingVixBlocksReturn(cfg: Config, m: MarketSample)
    requires cfg.vixProtection > 0.0 && m.vix.None?
    ensures NextRegime(cfg, Inverse, m) == Inverse
  {
  }

  /**
   * Hysteresis: with VIX between 80% of the ceiling and the ceiling, VIX
   * alone moves neither regime, and the S&P 500 between its SMA 200 and the
   * entry threshold moves neither regime either unless VIX spikes.
   */
  lemma VixBandKeepsRegime(cfg: Config, m: MarketSample)
    requires cfg.vixProtection > 0.0 && m.vix.Some?
    requires 0.8 * cfg.vixProtection <= m.vix.value <= cfg.vixProtection
    ensures NextRegime(cfg, Inverse, m) == Inverse
    ensures NextRegime(cfg, Normal, m) == (if Sp500Bearish(m) then Inverse else Normal)
  {
  }

  lemma Sp500BandKeepsRegime(cfg: Config, m: MarketSample)
    requires HasSp500(m) && m.spSma200.value <= m.spClose.value <= m.spSma200.value * cfg.entryThreshold
    ensures NextRegime(cfg, Inverse, m) == Inverse
    ensures NextRegime(cfg, Normal, m) == (if VixTrigger(cfg, m) then Inverse else Normal)
  {
  }

  /** With the script's settings a VIX of 40 leaves either regime where it is. */
  lemma HysteresisExample(m: MarketSample)
    requires m.vix == Some(40.0)
    requires m.spClose == Some(110.0) && m.spSma200 == Some(100.0)
    ensures NextRegime(DefaultConfig, Normal, m) == Normal
    ensures NextRegime(DefaultConfig, Inverse, m) == Inverse
  {
  }

  /** A history entry is appended exactly when the regime changed, and records the change. */
  lemma RecordChangeExact(history: seq<RegimeChange>, date: int, from: Regime, to: Regime)
    ensures |RecordChange(history, date, from, to)| == |history| + (if from != to then 1 else 0)
    ensures RecordChange(history, date, from, to)[..|history|] == history
    ensures from != to ==> RecordChange(history, date, from, to)[|history|] == RegimeChange(date, from, to)
  {
  }

  // ---------------------------------------------------------------------
  // 6. Candidates and gating
  // ---------------------------------------------------------------------

  /**
   * The candidate list is exact: each entry is a ticker of the universe that
   * is not held, whose buy flag for the regime is set and whose close is
   * known, recorded with its close as price; and every such ticker appears.
   */
  lemma {:induction false} CandidatesExact(universe: seq<Ticker>, bars: map<Ticker, Bar>, held: set<Ticker>, regime: Regime)
    ensures forall i :: 0 <= i < |Candidates(universe, bars, held, regime)| ==>
      var c := Candidates(universe, bars, held, regime)[i];
      c.ticker in universe && IsCandidate(bars, held, regime, c.ticker) && c == CandidateOf(bars, held, regime, c.ticker)
    ensures forall t :: t in universe && IsCandidate(bars, held, regime, t) ==>
      exists i :: 0 <= i < |Candidates(universe, bars, held, regime)| && Candidates(universe, bars, held, regime)[i].ticker == t
  {
    if universe != [] {
      var pre, t := universe[..|universe| - 1], universe[|universe| - 1];
      CandidatesExact(pre, bars, held, regime);
      var cs, all := Candidates(pre, bars, held, regime), Candidates(universe, bars, held, regime);
      assert forall i :: 0 <= i < |cs| ==> all[i] == cs[i];
      forall u | u in universe && IsCandidate(bars, held, regime, u)
        ensures exists i :: 0 <= i < |all| && all[i].ticker == u
      {
        if u == t {
          assert all[|all| - 1].ticker == u;
        } else {
          assert u in pre by {
            var k :| 0 <= k < |universe| && universe[k] == u;
            assert pre[k] == u;
          }
          var i :| 0 <= i < |cs| && cs[i].ticker == u;
          assert all[i].ticker == u;
        }
      }
      forall i | 0 <= i < |all| ensures all[i].ticker in universe {
        if i < |cs| {
          assert cs[i].ticker in pre;
        }
      }
    }
  }

  /** A universe without repeated tickers gives candidates with distinct tickers. */
  lemma {:induction false} CandidatesDistinct(universe: seq<Ticker>, bars: map<Ticker, Bar>, held: set<Ticker>, regime: Regime)
    requires Distinct(universe)
    ensures DistinctTickers(Candidates(universe, bars, held, regime))
  {
    if universe != [] {
      var pre, t := universe[..|universe| - 1], universe[|universe| - 1];
      assert Distinct(pre) by {
        forall i, j | 0 <= i < j < |pre| ensures pre[i] != pre[j] {
          assert pre[i] == universe[i] && pre[j] == universe[j];
        }
      }
      CandidatesDistinct(pre, bars, held, regime);
      CandidatesExact(pre, bars, held, regime);
      var cs, all := Candidates(pre, bars, held, regime), Candidates(universe, bars, held, regime);
      forall i, j | 0 <= i < j < |all| ensures all[i].ticker != all[j].ticker {
        if j == |cs| {
          assert all[i] == cs[i] && cs[i].ticker in pre;
          var k :| 0 <= k < |pre| && pre[k] == cs[i].ticker;
          assert universe[k] == pre[k];
        } else {
          assert all[i] == cs[i] && all[j] == cs[j];
        }
      }
    }
  }

  /** Everything that the admission step relies on about the candidates it is given. */
  predicate Admissible(cands: seq<Candidate>, bars: map<Ticker, Bar>, held: set<Ticker>) {
    DistinctTickers(cands)
    && forall k :: 0 <= k < |cands| ==>
         cands[k].ticker !in held && KnownClose(bars, cands[k].ticker) && cands[k].price == CloseOf(bars, cands[k].ticker)
  }

  /** The ranked candidates, and any prefix of them, are admissible. */
  lemma RankedAdmissible(spec: SortSpec, universe: seq<Ticker>, bars: map<Ticker, Bar>, held: set<Ticker>, regime: Regime, n: nat)
    requires Distinct(universe)
    requires n <= |Candidates(universe, bars, held, regime)|
    ensures Admissible(Sort(spec, Candidates(universe, bars, held, regime))[..n], bars, held)
  {
    var cs := Candidates(universe, bars, held, regime);
    var ranked := Sort(spec, cs);
    CandidatesExact(universe, bars, held, regime);
    CandidatesDistinct(universe, bars, held, regime);
    SortKeepsDistinct(spec, cs);
    SortMembers(spec, cs);
    var pre := ranked[..n];
    forall k | 0 <= k < |pre|
      ensures pre[k].ticker !in held && KnownClose(bars, pre[k].ticker) && pre[k].price == CloseOf(bars, pre[k].ticker)
    {
      assert pre[k] == ranked[k] && ranked[k] in cs;
    }
    forall i, j | 0 <= i < j < |pre| ensures pre[i].ticker != pre[j].ticker {
      assert pre[i] == ranked[i] && pre[j] == ranked[j];
    }
  }

  // ---------------------------------------------------------------------
  // 7. Admission
  // ---------------------------------------------------------------------

  /** What every position the simulator opens satisfies. */
  predicate WellFormed(cfg: Config, p: Position) {
    p.quantity >= 1.0 && p.quantity == p.quantity.Floor as real
    && p.investmentCost >= 5.0 && p.notional == p.investmentCost * cfg.leverage
    && p.positionType == TypeFor(p.strategy)
  }

  /** `p` was opened from candidate `c` on `date` under `regime`. */
  predicate OpenedFrom(cfg: Config, regime: Regime, date: int, c: Candidate, p: Position) {
    p.ticker == c.ticker && p.buyDate == date && p.notional == p.quantity * c.price
    && p.accumulatedSwap == 0.0 && p.strategy == regime && p.positionType == TypeFor(regime)
    && WellFormed(cfg, p)
  }

  /** `floor(x / L)` times `L`... the facts of the sizing arithmetic, step by step. */
  lemma SizingBound(cash: real, slots: real, lev: real, price: real, qty: int)
    requires slots >= 1.0 && lev > 0.0 && price > 0.0
    requires qty as real <= cash / slots * lev / price
    ensures qty as real * price / lev <= cash / slots
  {
    var x := cash / slots * lev / price;
    assert x * price == cash / slots * lev;
    assert qty as real * price <= x * price;
    assert qty as real * price / lev <= x * price / lev;
  }

  lemma PerSlotAtMostCash(cash: real, slots: real)
    requires cash >= 0.0 && slots >= 1.0
    ensures 0.0 <= cash / slots <= cash
  {
    assert cash / slots * slots == cash;
    assert cash <= cash * slots;
  }

  lemma NoCashNoQuantity(cash: real, slots: real, lev: real, price: real)
    requires slots >= 1.0 && lev > 0.0 && price > 0.0 && cash <= 0.0
    ensures (cash / slots * lev / price).Floor <= 0
  {
    assert cash / slots <= 0.0;
    assert cash / slots * lev <= 0.0;
    assert cash / slots * lev / price <= 0.0;
  }

  /**
   * A filled candidate is opened at its price under the regime with zero
   * financing, costs at least 5.0, and costs no more than the cash per open
   * slot, which is no more than the cash.
   */
  lemma TryAdmitSound(cfg: Config, regime: Regime, date: int, l: Ledger, c: Candidate)
    requires ValidConfig(cfg) && OpenSlots(cfg, l.book) > 0
    ensures TryAdmit(cfg, regime, date, l, c).Some? ==>
      var p := TryAdmit(cfg, regime, date, l, c).value;
      OpenedFrom(cfg, regime, date, c, p)
      && p.investmentCost <= l.cash / OpenSlots(cfg, l.book) as real <= l.cash
  {
    if TryAdmit(cfg, regime, date, l, c).Some? {
      var slots := OpenSlots(cfg, l.book);
      var qty := Quantity(cfg, l.cash, slots, c.price);
      SizingBound(l.cash, slots as real, cfg.leverage, c.price, qty);
      var p := TryAdmit(cfg, regime, date, l, c).value;
      assert p.notional == p.investmentCost * cfg.leverage;
      PerSlotAtMostCash(l.cash, slots as real);
    }
  }

  /** Without positive cash nothing is opened. */
  lemma NoCashNoEntry(cfg: Config, regime: Regime, date: int, l: Ledger, c: Candidate)
    requires ValidConfig(cfg) && OpenSlots(cfg, l.book) > 0 && l.cash <= 0.0
    ensures TryAdmit(cfg, regime, date, l, c).None?
  {
    if c.price > 0.0 {
      NoCashNoQuantity(l.cash, OpenSlots(cfg, l.book) as real, cfg.leverage, c.price);
    }
  }

  /**
   * When the cash is not negative the `cash >= cost` guard never refuses a
   * candidate: a sized quantity of at least 5.0 margin is always affordable.
   */
  lemma CashGuardNeverBinds(cfg: Config, regime: Regime, date: int, cash: real, slots: int, c: Candidate, qty: int)
    requires ValidConfig(cfg) && slots >= 1 && cash >= 0.0 && c.price > 0.0
    requires qty == Quantity(cfg, cash, slots, c.price)
    requires qty > 0 && Margin(cfg, qty, c.price) >= 5.0
    ensures Fill(cfg, regime, date, cash, c, qty).Some?
  {
    SizingBound(cash, slots as real, cfg.leverage, c.price, qty);
    PerSlotAtMostCash(cash, slots as real);
    FillAffordable(cfg, regime, date, cash, c, qty);
  }

  lemma FillAffordable(cfg: Config, regime: Regime, date: int, cash: real, c: Candidate, qty: int)
    requires ValidConfig(cfg) && qty > 0
    requires 5.0 <= Margin(cfg, qty, c.price) <= cash
    ensures Fill(cfg, regime, date, cash, c, qty).Some?
  {
  }

  /** A position opened at its candidate's price has zero unrealized P&L there. */
  lemma OpenedAtZeroPnl(cfg: Config, regime: Regime, date: int, c: Candidate, p: Position)
    requires OpenedFrom(cfg, regime, date, c, p)
    ensures Equity(p, c.price) == p.investmentCost
  {
    assert c.price * p.quantity == p.notional;
  }

  /** 1000 of cash, one open slot, leverage 5, price 10: 500 units, 5000 notional, all the cash as margin. */
  lemma SizingExample(date: int)
    ensures
      var cfg := DefaultConfig.(maxPositions := 1);
      var c := Candidate("A", 5.0, 10.0, None, None);
      TryAdmit(cfg, Normal, date, Ledger(1000.0, []), c)
        == Some(Position("A", 500.0, date, 1000.0, 5000.0, 0.0, Normal, Long))
  {
    var cfg := DefaultConfig.(maxPositions := 1);
    assert (1000.0 / 1 as real * cfg.leverage / 10.0) == 500.0;
    assert Margin(cfg, 500, 10.0) == 1000.0;
  }

  /**
   * 900 of cash, two open slots, leverage 1, two candidates at 10: the
   * second fill re-sizes on the cash left for the one slot left, so both
   * buy 45 units and the cash is used up.
   */
  lemma DepletionExample(date: int)
    ensures
      var cfg := DefaultConfig.(maxPositions := 2, leverage := 1.0);
      var a, b := Candidate("A", 5.0, 10.0, None, None), Candidate("B", 6.0, 10.0, None, None);
      var r := AdmitAll(cfg, Normal, date, Ledger(900.0, []), [a, b]);
      && r.cash == 0.0
      && r.book == [Position("A", 45.0, date, 450.0, 450.0, 0.0, Normal, Long),
                    Position("B", 45.0, date, 450.0, 450.0, 0.0, Normal, Long)]
  {
    var cfg := DefaultConfig.(maxPositions := 2, leverage := 1.0);
    var a, b := Candidate("A", 5.0, 10.0, None, None), Candidate("B", 6.0, 10.0, None, None);
    var pa := Position("A", 45.0, date, 450.0, 450.0, 0.0, Normal, Long);
    var pb := Position("B", 45.0, date, 450.0, 450.0, 0.0, Normal, Long);
    assert 900.0 / 2 as real * 1.0 / 10.0 == 45.0;
    assert TryAdmit(cfg, Normal, date, Ledger(900.0, []), a) == Some(pa);
    assert 450.0 / 1 as real * 1.0 / 10.0 == 45.0;
    assert TryAdmit(cfg, Normal, date, Ledger(450.0, [pa]), b) == Some(pb);
    assert [a, b][1..] == [b] && [b][1..] == [] && [] + [pa] == [pa] && [pa] + [pb] == [pa, pb];
    assert AdmitAll(cfg, Normal, date, Ledger(450.0, [pa]), [b]) == Ledger(0.0, [pa, pb]);
    assert AdmitAll(cfg, Normal, date, Ledger(900.0, []), [a, b]) == AdmitAll(cfg, Normal, date, Ledger(450.0, [pa]), [b]);
  }

  /**
   * Admission appends to the book and never beyond MAX_CONCURRENT_POSITIONS,
   * opens at most one position per candidate tried, keeps cash non-negative
   * when it starts non-negative, and opens nothing without positive cash.
   */
  lemma {:induction false} AdmitAllBounds(cfg: Config, regime: Regime, date: int, l: Ledger, cands: seq<Candidate>)
    requires ValidConfig(cfg) && |l.book| <= cfg.maxPositions
    ensures
      var r := AdmitAll(cfg, regime, date, l, cands);
      && |l.book| <= |r.book| <= cfg.maxPositions
      && |r.book| - |l.book| <= |cands|
      && r.book[..|l.book|] == l.book
      && (l.cash >= 0.0 ==> r.cash >= 0.0)
      && (l.cash <= 0.0 ==> r == l)
    decreases |cands|
  {
    if cands != [] && OpenSlots(cfg, l.book) != 0 {
      TryAdmitSound(cfg, regime, date, l, cands[0]);
      if l.cash <= 0.0 {
        NoCashNoEntry(cfg, regime, date, l, cands[0]);
      }
      match TryAdmit(cfg, regime, date, l, cands[0])
      case None =>
        AdmitAllBounds(cfg, regime, date, l, cands[1..]);
      case Some(p) =>
        var next := Ledger(l.cash - p.investmentCost, l.book + [p]);
        AdmitAllBounds(cfg, regime, date, next, cands[1..]);
        var r := AdmitAll(cfg, regime, date, next, cands[1..]);
        assert r.book[..|l.book|] == r.book[..|next.book|][..|l.book|];
    }
  }

  /** Every position admission adds was opened from one of the candidates, on the day, under the regime. */
  lemma {:induction false} AdmitAllOpens(cfg: Config, regime: Regime, date: int, l: Ledger, cands: seq<Candidate>)
    requires ValidConfig(cfg) && |l.book| <= cfg.maxPositions
    ensures
      var r := AdmitAll(cfg, regime, date, l, cands);
      |l.book| <= |r.book| &&
      forall i :: |l.book| <= i < |r.book| ==>
        exists k :: 0 <= k < |cands| && OpenedFrom(cfg, regime, date, cands[k], r.book[i])
    decreases |cands|
  {
    AdmitAllBounds(cfg, regime, date, l, cands);
    if cands != [] && OpenSlots(cfg, l.book) != 0 {
      TryAdmitSound(cfg, regime, date, l, cands[0]);
      var rest := cands[1..];
      match TryAdmit(cfg, regime, date, l, cands[0])
      case None =>
        AdmitAllOpens(cfg, regime, date, l, rest);
        var r := AdmitAll(cfg, regime, date, l, rest);
        forall i | |l.book| <= i < |r.book|
          ensures exists k :: 0 <= k < |cands| && OpenedFrom(cfg, regime, date, cands[k], r.book[i])
        {
          var k :| 0 <= k < |rest| && OpenedFrom(cfg, regime, date, rest[k], r.book[i]);
          assert rest[k] == cands[k + 1];
        }
      case Some(p) =>
        var next := Ledger(l.cash - p.investmentCost, l.book + [p]);
        AdmitAllOpens(cfg, regime, date, next, rest);
        AdmitAllBounds(cfg, regime, date, next, rest);
        var r := AdmitAll(cfg, regime, date, next, rest);
        forall i | |l.book| <= i < |r.book|
          ensures exists k :: 0 <= k < |cands| && OpenedFrom(cfg, regime, date, cands[k], r.book[i])
        {
          if i == |l.book| {
            assert r.book[i] == r.book[..|next.book|][i] == p;
          } else {
            var k :| 0 <= k < |rest| && OpenedFrom(cfg, regime, date, rest[k], r.book[i]);
            assert rest[k] == cands[k + 1];
          }
        }
    }
  }

  /** The tickers of the book are pairwise different: the positions are a dict keyed by ticker. */
  predicate UniqueTickers(book: seq<Position>) {
    forall i, j :: 0 <= i < j < |book| ==> book[i].ticker != book[j].ticker
  }

  lemma HeldTickersSnoc(book: seq<Position>, p: Position, t: Ticker)
    ensures t in HeldTickers(book + [p]) <==> t in HeldTickers(book) || t == p.ticker
  {
    if t in HeldTickers(book) {
      var q :| q in book && q.ticker == t;
      assert q in book + [p];
    }
    if t == p.ticker {
      assert p in book + [p];
    }
  }

  lemma UniqueTickersSnoc(book: seq<Position>, p: Position)
    requires UniqueTickers(book) && p.ticker !in HeldTickers(book)
    ensures UniqueTickers(book + [p])
  {
    var b := book + [p];
    forall i, j | 0 <= i < j < |b| ensures b[i].ticker != b[j].ticker {
      if j == |book| {
        assert b[i] == book[i] && book[i] in book;
      } else {
        assert b[i] == book[i] && b[j] == book[j];
      }
    }
  }

  /** Admitting candidates with distinct, unheld tickers keeps the tickers of the book unique. */
  lemma {:induction false} AdmitAllKeepsUnique(cfg: Config, regime: Regime, date: int, l: Ledger, cands: seq<Candidate>)
    requires ValidConfig(cfg) && |l.book| <= cfg.maxPositions && UniqueTickers(l.book)
    requires DistinctTickers(cands) && forall k :: 0 <= k < |cands| ==> cands[k].ticker !in HeldTickers(l.book)
    ensures UniqueTickers(AdmitAll(cfg, regime, date, l, cands).book)
    decreases |cands|
  {
    if cands != [] && OpenSlots(cfg, l.book) != 0 {
      TryAdmitSound(cfg, regime, date, l, cands[0]);
      var rest := cands[1..];
      assert DistinctTickers(rest) by {
        forall i, j | 0 <= i < j < |rest| ensures rest[i].ticker != rest[j].ticker {
          assert rest[i] == cands[i + 1] && rest[j] == cands[j + 1];
        }
      }
      match TryAdmit(cfg, regime, date, l, cands[0])
      case None =>
        AdmitAllKeepsUnique(cfg, regime, date, l, rest);
      case Some(p) =>
        var next := Ledger(l.cash - p.investmentCost, l.book + [p]);
        UniqueTickersSnoc(l.book, p);
        forall k | 0 <= k < |rest| ensures rest[k].ticker !in HeldTickers(next.book) {
          assert rest[k] == cands[k + 1];
          HeldTickersSnoc(l.book, p, rest[k].ticker);
        }
        AdmitAllKeepsUnique(cfg, regime, date, next, rest);
    }
  }

  /**
   * Opening a position moves its margin from cash into the book at zero
   * P&L, so admission leaves cash plus equity at the day's closes unchanged.
   */
  lemma {:induction false} AdmitAllConservesValue(cfg: Config, regime: Regime, date: int, l: Ledger, cands: seq<Candidate>, bars: map<Ticker, Bar>)
    requires ValidConfig(cfg) && |l.book| <= cfg.maxPositions && PricesKnown(l.book, bars)
    requires forall k :: 0 <= k < |cands| ==>
      KnownClose(bars, cands[k].ticker) && cands[k].price == CloseOf(bars, cands[k].ticker)
    ensures PricesKnown(AdmitAll(cfg, regime, date, l, cands).book, bars)
    ensures DayValue(AdmitAll(cfg, regime, date, l, cands).cash, AdmitAll(cfg, regime, date, l, cands).book, bars)
      == DayValue(l.cash, l.book, bars)
    decreases |cands|
  {
    if cands != [] && OpenSlots(cfg, l.book) != 0 {
      TryAdmitSound(cfg, regime, date, l, cands[0]);
      var rest := cands[1..];
      assert forall k :: 0 <= k < |rest| ==> rest[k] == cands[k + 1];
      match TryAdmit(cfg, regime, date, l, cands[0])
      case None =>
        AdmitAllConservesValue(cfg, regime, date, l, rest, bars);
      case Some(p) =>
        var next := Ledger(l.cash - p.investmentCost, l.book + [p]);
        OpenedAtZeroPnl(cfg, regime, date, cands[0], p);
        BookEquitySnoc(l.book, p, bars);
        AdmitAllConservesValue(cfg, regime, date, next, rest, bars);
    }
  }

  // ---------------------------------------------------------------------
  // The entry phase as a whole
  // ---------------------------------------------------------------------

  /**
   * The entry phase changes nothing unless a slot is open and the regime's
   * entry gate is open; otherwise it only appends, never beyond
   * MAX_CONCURRENT_POSITIONS, and keeps cash non-negative.
   */
  lemma EntryPhaseBounds(cfg: Config, universe: seq<Ticker>, day: Day, regime: Regime, l: Ledger)
    requires ValidConfig(cfg) && |l.book| <= cfg.maxPositions
    ensures
      var r := EntryPhase(cfg, universe, day, regime, l);
      && (!(OpenSlots(cfg, l.book) > 0 && CanEnter(cfg, regime, day.market)) ==> r == l)
      && |l.book| <= |r.book| <= cfg.maxPositions
      && r.book[..|l.book|] == l.book
      && (l.cash >= 0.0 ==> r.cash >= 0.0)
  {
    var slots := OpenSlots(cfg, l.book);
    if slots > 0 && CanEnter(cfg, regime, day.market) {
      var ranked := Sort(SortSpecFor(cfg.ranking, regime), Candidates(universe, day.bars, HeldTickers(l.book), regime));
      AdmitAllBounds(cfg, regime, day.date, l, ranked[..Min(slots, |ranked|)]);
    }
  }

  /** When the universe has no repeated ticker, the entry phase keeps one position per ticker. */
  lemma EntryPhaseKeepsUnique(cfg: Config, universe: seq<Ticker>, day: Day, regime: Regime, l: Ledger)
    requires ValidConfig(cfg) && |l.book| <= cfg.maxPositions && Distinct(universe) && UniqueTickers(l.book)
    ensures UniqueTickers(EntryPhase(cfg, universe, day, regime, l).book)
  {
    var slots := OpenSlots(cfg, l.book);
    if slots > 0 && CanEnter(cfg, regime, day.market) {
      var held := HeldTickers(l.book);
      var ranked := Sort(SortSpecFor(cfg.ranking, regime), Candidates(universe, day.bars, held, regime));
      var n := Min(slots, |ranked|);
      RankedAdmissible(SortSpecFor(cfg.ranking, regime), universe, day.bars, held, regime, n);
      AdmitAllKeepsUnique(cfg, regime, day.date, l, ranked[..n]);
    }
  }

  /** The entry phase moves cash into margin without changing the day's value. */
  lemma EntryPhaseConservesValue(cfg: Config, universe: seq<Ticker>, day: Day, regime: Regime, l: Ledger)
    requires ValidConfig(cfg) && |l.book| <= cfg.maxPositions && PricesKnown(l.book, day.bars)
    ensures
      var r := EntryPhase(cfg, universe, day, regime, l);
      PricesKnown(r.book, day.bars) && DayValue(r.cash, r.book, day.bars) == DayValue(l.cash, l.book, day.bars)
  {
    var slots := OpenSlots(cfg, l.book);
    if slots > 0 && CanEnter(cfg, regime, day.market) {
      var held := HeldTickers(l.book);
      var cs := Candidates(universe, day.bars, held, regime);
      var ranked := Sort(SortSpecFor(cfg.ranking, regime), cs);
      var pre := ranked[..Min(slots, |ranked|)];
      CandidatesExact(universe, day.bars, held, regime);
      SortMembers(SortSpecFor(cfg.ranking, regime), cs);
      forall k | 0 <= k < |pre|
        ensures KnownClose(day.bars, pre[k].ticker) && pre[k].price == CloseOf(day.bars, pre[k].ticker)
      {
        assert pre[k] == ranked[k] && ranked[k] in cs;
      }
      AdmitAllConservesValue(cfg, regime, day.date, l, pre, day.bars);
    }
  }

  /**
   * Each position the entry phase opens is a candidate of the day: a ticker
   * of the universe that was not held, with the regime's buy flag and a
   * known close, opened at that close, on the day, under the regime.
   */
  lemma EntryPhaseOpensCandidates(cfg: Config, universe: seq<Ticker>, day: Day, regime: Regime, l: Ledger)
    requires ValidConfig(cfg) && |l.book| <= cfg.maxPositions
    ensures
      var r := EntryPhase(cfg, universe, day, regime, l);
      |l.book| <= |r.book| &&
      forall i :: |l.book| <= i < |r.book| ==>
        var p := r.book[i];
        && p.ticker in universe && IsCandidate(day.bars, HeldTickers(l.book), regime, p.ticker)
        && OpenedFrom(cfg, regime, day.date, CandidateOf(day.bars, HeldTickers(l.book), regime, p.ticker), p)
  {
    var slots := OpenSlots(cfg, l.book);
    if slots > 0 && CanEnter(cfg, regime, day.market) {
      var held := HeldTickers(l.book);
      var cs := Candidates(universe, day.bars, held, regime);
      var ranked := Sort(SortSpecFor(cfg.ranking, regime), cs);
      var pre := ranked[..Min(slots, |ranked|)];
      AdmitAllOpens(cfg, regime, day.date, l, pre);
      CandidatesExact(universe, day.bars, held, regime);
      SortMembers(SortSpecFor(cfg.ranking, regime), cs);
      var r := AdmitAll(cfg, regime, day.date, l, pre);
      forall i | |l.book| <= i < |r.book|
        ensures r.book[i].ticker in universe && IsCandidate(day.bars, held, regime, r.book[i].ticker)
        ensures OpenedFrom(cfg, regime, day.date, CandidateOf(day.bars, held, regime, r.book[i].ticker), r.book[i])
      {
        var k :| 0 <= k < |pre| && OpenedFrom(cfg, regime, day.date, pre[k], r.book[i]);
        assert pre[k] == ranked[k] && ranked[k] in cs;
        var j :| 0 <= j < |cs| && cs[j] == pre[k];
      }
    }
  }

  // ---------------------------------------------------------------------
  // The state invariant of a run
  // ---------------------------------------------------------------------

  predicate AllWellFormed(cfg: Config, book: seq<Position>) {
    forall i :: 0 <= i < |book| ==> WellFormed(cfg, book[i])
  }

  /**
   * What holds of the simulator's state at the end of every day: at most
   * MAX_CONCURRENT_POSITIONS positions, one per ticker, each as admission
   * opens them, and an empty book once the run stopped on a margin call.
   */
  predicate ValidState(cfg: Config, s: SimState) {
    |s.book| <= cfg.maxPositions && UniqueTickers(s.book) && AllWellFormed(cfg, s.book)
    && (s.halted ==> s.book == [])
  }

  /** The state before the first day is valid. */
  lemma InitialStateValid(cfg: Config, regime: Regime)
    ensures ValidState(cfg, InitialState(cfg, regime))
    ensures InitialState(cfg, regime).cash == cfg.initialCapital && !InitialState(cfg, regime).halted
  {
  }

  /** Accrual and valuation: the accrued book has the day's value of the book before accrual. */
  lemma AccruedBookKeepsValue(cfg: Config, book: seq<Position>, m: MarketSample, bars: map<Ticker, Bar>)
    requires PricesKnown(book, bars)
    ensures PricesKnown(AccruedBook(cfg, book, m), bars)
    ensures BookEquity(AccruedBook(cfg, book, m), bars) == BookEquity(book, bars)
  {
    if cfg.leverage > 1.0 {
      AccrueKeepsEquity(book, SwapRateAnnual(m), bars);
    }
  }

  /** Accrual keeps the tickers unique and every position well formed. */
  lemma AccruedBookKeepsShape(cfg: Config, book: seq<Position>, m: MarketSample)
    requires UniqueTickers(book) && AllWellFormed(cfg, book)
    ensures UniqueTickers(AccruedBook(cfg, book, m)) && AllWellFormed(cfg, AccruedBook(cfg, book, m))
  {
    if cfg.leverage > 1.0 {
      var r := AccruedBook(cfg, book, m);
      forall i | 0 <= i < |r| ensures WellFormed(cfg, r[i]) {
        AccrueAt(book, SwapRateAnnual(m), i);
      }
    }
  }

  /** The kept positions are a sub-sequence of the book: unique tickers and well-formedness carry over. */
  lemma KeptKeepsShape(cfg: Config, book: seq<Position>, bars: map<Ticker, Bar>, date: int)
    requires PricesKnown(book, bars) && UniqueTickers(book) && AllWellFormed(cfg, book)
    ensures UniqueTickers(Kept(cfg, book, bars, date)) && AllWellFormed(cfg, Kept(cfg, book, bars, date))
  {
    KeptUniqueTickers(cfg, book, bars, date);
    var kept := Kept(cfg, book, bars, date);
    forall i | 0 <= i < |kept| ensures WellFormed(cfg, kept[i]) {
      assert kept[i] in kept;
    }
  }

  lemma {:induction false} KeptUniqueTickers(cfg: Config, book: seq<Position>, bars: map<Ticker, Bar>, date: int)
    requires PricesKnown(book, bars) && UniqueTickers(book)
    ensures UniqueTickers(Kept(cfg, book, bars, date))
  {
    if book != [] {
      var pre, p := book[..|book| - 1], book[|book| - 1];
      PricesKnownPrefix(book, bars);
      assert UniqueTickers(pre) by {
        assert forall i :: 0 <= i < |pre| ==> pre[i] == book[i];
      }
      KeptUniqueTickers(cfg, pre, bars, date);
      var kept := Kept(cfg, pre, bars, date);
      if !ShouldClose(cfg, p, bars, date) {
        assert Kept(cfg, book, bars, date) == kept + [p];
        assert p.ticker !in HeldTickers(kept);
        UniqueTickersSnoc(kept, p);
      } else {
        assert Kept(cfg, book, bars, date) == kept;
      }
    }
  }

  /** The entry phase keeps every position well formed. */
  lemma EntryPhaseKeepsWellFormed(cfg: Config, universe: seq<Ticker>, day: Day, regime: Regime, l: Ledger)
    requires ValidConfig(cfg) && |l.book| <= cfg.maxPositions && AllWellFormed(cfg, l.book)
    ensures AllWellFormed(cfg, EntryPhase(cfg, universe, day, regime, l).book)
  {
    var r := EntryPhase(cfg, universe, day, regime, l);
    EntryPhaseOpensCandidates(cfg, universe, day, regime, l);
    if OpenSlots(cfg, l.book) > 0 && CanEnter(cfg, regime, day.market) {
      var held := HeldTickers(l.book);
      var ranked := Sort(SortSpecFor(cfg.ranking, regime), Candidates(universe, day.bars, held, regime));
      AdmitAllBounds(cfg, regime, day.date, l, ranked[..Min(OpenSlots(cfg, l.book), |ranked|)]);
    }
    forall i | 0 <= i < |r.book| ensures WellFormed(cfg, r.book[i]) {
      if i < |l.book| {
        assert r.book[i] == r.book[..|l.book|][i] == l.book[i];
      }
    }
  }

  /** The exits keep the shape of the book. */
  lemma ExitPhaseKeepsShape(cfg: Config, cash: real, book1: seq<Position>, bars: map<Ticker, Bar>, date: int)
    requires PricesKnown(book1, bars) && UniqueTickers(book1) && AllWellFormed(cfg, book1)
    ensures
      var l := ExitPhase(cfg, cash, book1, bars, date);
      |l.book| <= |book1| && UniqueTickers(l.book) && AllWellFormed(cfg, l.book)
  {
    KeptKeepsShape(cfg, book1, bars, date);
  }

  /**
   * The exits move the closed positions' value into cash less their
   * financing: cash plus the kept book is the day's value less the closed
   * swap.
   */
  lemma ExitPhaseValue(cfg: Config, cash: real, book1: seq<Position>, bars: map<Ticker, Bar>, date: int)
    requires PricesKnown(book1, bars)
    ensures
      var l := ExitPhase(cfg, cash, book1, bars, date);
      && |l.book| <= |book1| && PricesKnown(l.book, bars)
      && DayValue(l.cash, l.book, bars) == DayValue(cash, book1, bars) - TotalSwap(Closed(cfg, book1, bars, date))
  {
    ExitConservesValue(cfg, cash, book1, bars, date);
  }

  /** A trading day leaves a state that satisfies the invariant, from a book of the right shape. */
  lemma TradingDayValid(cfg: Config, universe: seq<Ticker>, s: SimState, day: Day, book1: seq<Position>)
    requires ValidConfig(cfg) && Distinct(universe) && PricesKnown(book1, day.bars)
    requires |book1| <= cfg.maxPositions && UniqueTickers(book1) && AllWellFormed(cfg, book1)
    ensures ValidState(cfg, TradingDay(cfg, universe, s, day, book1))
  {
    var l := ExitPhase(cfg, s.cash, book1, day.bars, day.date);
    var regime := NextRegime(cfg, s.regime, day.market);
    ExitPhaseKeepsShape(cfg, s.cash, book1, day.bars, day.date);
    EntryPhaseBounds(cfg, universe, day, regime, l);
    EntryPhaseKeepsUnique(cfg, universe, day, regime, l);
    EntryPhaseKeepsWellFormed(cfg, universe, day, regime, l);
  }

  /** Every day keeps the state invariant. */
  lemma StepPreservesValid(cfg: Config, universe: seq<Ticker>, s: SimState, day: Day)
    requires ValidConfig(cfg) && ValidState(cfg, s) && PricesKnown(s.book, day.bars) && Distinct(universe)
    ensures ValidState(cfg, StepSpec(cfg, universe, s, day))
  {
    var book1 := AccruedBook(cfg, s.book, day.market);
    AccruedBookKeepsValue(cfg, s.book, day.market, day.bars);
    AccruedBookKeepsShape(cfg, s.book, day.market);
    if DayValue(s.cash, book1, day.bars) > 0.0 {
      TradingDayValid(cfg, universe, s, day, book1);
    }
  }

  // ---------------------------------------------------------------------
  // A trading day: bookkeeping of value and of the book
  // ---------------------------------------------------------------------

  /**
   * On a trading day the run goes on, the snapshot is the value before any
   * exit, and one trade is appended per position that closed.
   */
  lemma TradingDayRecords(cfg: Config, universe: seq<Ticker>, s: SimState, day: Day, book1: seq<Position>)
    requires ValidConfig(cfg) && PricesKnown(book1, day.bars)
    ensures
      var r := TradingDay(cfg, universe, s, day, book1);
      var closed := Closed(cfg, book1, day.bars, day.date);
      && !r.halted
      && r.history == s.history + [Snapshot(day.date, DayValue(s.cash, book1, day.bars))]
      && |r.trades| == |s.trades| + |closed| && r.trades[..|s.trades|] == s.trades
      && forall i :: |s.trades| <= i < |r.trades| ==>
           r.trades[i] == CloseTrade(closed[i - |s.trades|], CloseOf(day.bars, closed[i - |s.trades|].ticker), day.date, None)
  {
    var closed := Closed(cfg, book1, day.bars, day.date);
    var r := TradingDay(cfg, universe, s, day, book1);
    assert r.trades == s.trades + Trades(closed, day.bars, day.date, None);
  }

  /**
   * On a trading day every held ticker has a close, and cash plus the new
   * book at the day's closes is the snapshot less the financing of the
   * positions that closed.
   */
  lemma TradingDayConservesValue(cfg: Config, universe: seq<Ticker>, s: SimState, day: Day, book1: seq<Position>)
    requires ValidConfig(cfg) && PricesKnown(book1, day.bars) && |book1| <= cfg.maxPositions
    ensures
      var r := TradingDay(cfg, universe, s, day, book1);
      && PricesKnown(r.book, day.bars)
      && DayValue(r.cash, r.book, day.bars) == DayValue(s.cash, book1, day.bars) - TotalSwap(Closed(cfg, book1, day.bars, day.date))
  {
    var l := ExitPhase(cfg, s.cash, book1, day.bars, day.date);
    ExitPhaseValue(cfg, s.cash, book1, day.bars, day.date);
    EntryPhaseConservesValue(cfg, universe, day, NextRegime(cfg, s.regime, day.market), l);
  }

  /**
   * On a trading day the new book starts with the kept positions in their
   * order, and every later position was opened today, under the regime
   * after the switch, from a candidate of that regime.
   */
  lemma TradingDayBook(cfg: Config, universe: seq<Ticker>, s: SimState, day: Day, book1: seq<Position>)
    requires ValidConfig(cfg) && PricesKnown(book1, day.bars) && |book1| <= cfg.maxPositions
    ensures
      var r := TradingDay(cfg, universe, s, day, book1);
      var kept := Kept(cfg, book1, day.bars, day.date);
      && r.regime == NextRegime(cfg, s.regime, day.market)
      && |kept| <= |r.book| && r.book[..|kept|] == kept
      && (forall i :: |kept| <= i < |r.book| ==>
            r.book[i].buyDate == day.date && r.book[i].strategy == r.regime
            && IsCandidate(day.bars, HeldTickers(kept), r.regime, r.book[i].ticker))
  {
    var l := ExitPhase(cfg, s.cash, book1, day.bars, day.date);
    var regime := NextRegime(cfg, s.regime, day.market);
    EntryPhaseBounds(cfg, universe, day, regime, l);
    EntryPhaseOpensCandidates(cfg, universe, day, regime, l);
  }

  // ---------------------------------------------------------------------
  // One whole day
  // ---------------------------------------------------------------------

  /**
   * A day stops the run exactly when its value, at the day's closes, is not
   * positive; financing accrued that day does not change the value, so the
   * test reads the same before and after accrual.
   */
  lemma StepHaltsExactly(cfg: Config, universe: seq<Ticker>, s: SimState, day: Day)
    requires ValidConfig(cfg) && PricesKnown(s.book, day.bars)
    ensures StepSpec(cfg, universe, s, day).halted <==> DayValue(s.cash, s.book, day.bars) <= 0.0
  {
    var book1 := AccruedBook(cfg, s.book, day.market);
    AccruedBookKeepsValue(cfg, s.book, day.market, day.bars);
    if DayValue(s.cash, book1, day.bars) > 0.0 {
      TradingDayRecords(cfg, universe, s, day, book1);
    }
  }

  /**
   * Every day appends one snapshot: the day's value when trading goes on,
   * the cash after liquidation when it stops.
   */
  lemma StepSnapshot(cfg: Config, universe: seq<Ticker>, s: SimState, day: Day)
    requires ValidConfig(cfg) && PricesKnown(s.book, day.bars)
    ensures
      var r := StepSpec(cfg, universe, s, day);
      && (r.halted ==> r.history == s.history + [Snapshot(day.date, r.cash)])
      && (!r.halted ==> r.history == s.history + [Snapshot(day.date, DayValue(s.cash, s.book, day.bars))])
  {
    var book1 := AccruedBook(cfg, s.book, day.market);
    AccruedBookKeepsValue(cfg, s.book, day.market, day.bars);
    if DayValue(s.cash, book1, day.bars) > 0.0 {
      TradingDayRecords(cfg, universe, s, day, book1);
    } else {
      MarginCallLiquidates(cfg, universe, s, day);
    }
  }

  /** Every day appends exactly one snapshot, dated with the day. */
  lemma StepHistory(cfg: Config, universe: seq<Ticker>, s: SimState, day: Day)
    requires ValidConfig(cfg) && PricesKnown(s.book, day.bars)
    ensures
      var r := StepSpec(cfg, universe, s, day);
      |r.history| == |s.history| + 1 && r.history[..|s.history|] == s.history && r.history[|s.history|].date == day.date
  {
    StepSnapshot(cfg, universe, s, day);
  }

  /**
   * The day's value is only ever reduced by financing: after a trading day
   * cash plus the book is the day's value less the swap of the positions
   * that closed, and after a margin call the cash is the day's value less
   * the swap of every position.
   */
  lemma StepConservesValue(cfg: Config, universe: seq<Ticker>, s: SimState, day: Day)
    requires ValidConfig(cfg) && PricesKnown(s.book, day.bars) && |s.book| <= cfg.maxPositions
    ensures
      var r := StepSpec(cfg, universe, s, day);
      var book1 := AccruedBook(cfg, s.book, day.market);
      && PricesKnown(r.book, day.bars)
      && (r.halted ==> r.cash == DayValue(s.cash, s.book, day.bars) - TotalSwap(book1))
      && (!r.halted ==>
            DayValue(r.cash, r.book, day.bars) == DayValue(s.cash, s.book, day.bars) - TotalSwap(Closed(cfg, book1, day.bars, day.date)))
  {
    var book1 := AccruedBook(cfg, s.book, day.market);
    AccruedBookKeepsValue(cfg, s.book, day.market, day.bars);
    if DayValue(s.cash, book1, day.bars) > 0.0 {
      TradingDayRecords(cfg, universe, s, day, book1);
      TradingDayConservesValue(cfg, universe, s, day, book1);
    } else {
      MarginCallLiquidates(cfg, universe, s, day);
    }
  }

  /** Trades are only ever appended: one per position of the book on a margin call, one per close otherwise. */
  lemma StepTrades(cfg: Config, universe: seq<Ticker>, s: SimState, day: Day)
    requires ValidConfig(cfg) && PricesKnown(s.book, day.bars)
    ensures
      var r := StepSpec(cfg, universe, s, day);
      var book1 := AccruedBook(cfg, s.book, day.market);
      && r.trades[..|s.trades|] == s.trades
      && |r.trades| == |s.trades| + (if r.halted then |s.book| else |Closed(cfg, book1, day.bars, day.date)|)
  {
    var book1 := AccruedBook(cfg, s.book, day.market);
    if DayValue(s.cash, book1, day.bars) > 0.0 {
      TradingDayRecords(cfg, universe, s, day, book1);
    } else {
      MarginCallLiquidates(cfg, universe, s, day);
    }
  }

  // ---------------------------------------------------------------------
  // The regime history
  // ---------------------------------------------------------------------

  /**
   * `history` is a chain of real changes leading from `start` to `current`:
   * each entry leaves the regime the previous one entered and changes it.
   */
  predicate Chained(start: Regime, history: seq<RegimeChange>, current: Regime) {
    if history == [] then current == start
    else
      var last := history[|history| - 1];
      last.to == current && last.from != last.to && Chained(start, history[..|history| - 1], last.from)
  }

  /**
   * Every day keeps the regime history a chain ending in the current
   * regime, adding at most one entry, and only on a trading day.
   */
  lemma StepKeepsChain(cfg: Config, universe: seq<Ticker>, s: SimState, day: Day, start: Regime)
    requires ValidConfig(cfg) && PricesKnown(s.book, day.bars) && Chained(start, s.regimeHistory, s.regime)
    ensures
      var r := StepSpec(cfg, universe, s, day);
      && Chained(start, r.regimeHistory, r.regime)
      && |s.regimeHistory| <= |r.regimeHistory| <= |s.regimeHistory| + 1
      && r.regimeHistory[..|s.regimeHistory|] == s.regimeHistory
      && (r.halted ==> r.regimeHistory == s.regimeHistory && r.regime == s.regime)
  {
    var book1 := AccruedBook(cfg, s.book, day.market);
    AccruedBookKeepsValue(cfg, s.book, day.market, day.bars);
    if DayValue(s.cash, book1, day.bars) > 0.0 {
      TradingDayRegime(cfg, universe, s, day, book1);
      var next := NextRegime(cfg, s.regime, day.market);
      RecordChangeExact(s.regimeHistory, day.date, s.regime, next);
      if next != s.regime {
        var h := RecordChange(s.regimeHistory, day.date, s.regime, next);
        assert h[..|h| - 1] == s.regimeHistory;
      }
    }
  }

  lemma TradingDayRegime(cfg: Config, universe: seq<Ticker>, s: SimState, day: Day, book1: seq<Position>)
    requires ValidConfig(cfg) && PricesKnown(book1, day.bars)
    ensures
      var r := TradingDay(cfg, universe, s, day, book1);
      && !r.halted && r.regime == NextRegime(cfg, s.regime, day.market)
      && r.regimeHistory == RecordChange(s.regimeHistory, day.date, s.regime, r.regime)
  {
  }
}
