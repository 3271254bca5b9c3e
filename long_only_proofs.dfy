/**
 * What the end-of-day rules of the long-only simulator promise: the two
 * signal columns exclude each other; valuation, liquidation and exits move
 * value between the book and cash without loss; the candidate list is
 * exact; admission keeps the book within MAX_CONCURRENT_POSITIONS and the
 * cash non-negative, sizes as the leverage factor says and conserves
 * value; every day keeps the state invariant and records the value it
 * computed before any close.
 */
module LongOnlyProofs {
  import opened MarketData
  import opened Calendar
  import opened Ranking
  import opened LongOnlyRules
  import SwitchingRules
  import SwitchingProofs

  // ---------------------------------------------------------------------
  // Signals and ranking
  // ---------------------------------------------------------------------

  /** The buy flag needs the close below the 5-day SMA, the exit flag above it: never both on one row. */
  lemma SignalsExclusive(bar: Bar)
    ensures !(BuySignal(bar) && ExitSignal(bar))
  {
  }

  /** The ranking table is the switching simulator's table in the NORMAL regime. */
  lemma SortSpecIsNormalTable(m: Method)
    ensures SortSpecOf(m) == SwitchingRules.SortSpecFor(m, SwitchingRules.Normal)
  {
  }

  // ---------------------------------------------------------------------
  // Unfolding the last-element recursions on an appended position
  // ---------------------------------------------------------------------

  lemma PricesKnownSnoc(a: seq<Position>, p: Position, bars: map<Ticker, Bar>)
    ensures PricesKnown(a + [p], bars) <==> PricesKnown(a, bars) && KnownClose(bars, p.ticker)
  {
    var b := a + [p];
    assert forall i :: 0 <= i < |a| ==> b[i] == a[i];
    assert b[|a|] == p;
  }

  lemma BookEquitySnoc(a: seq<Position>, p: Position, bars: map<Ticker, Bar>)
    requires PricesKnown(a, bars) && KnownClose(bars, p.ticker)
    ensures PricesKnown(a + [p], bars)
    ensures BookEquity(a + [p], bars) == BookEquity(a, bars) + Proceeds(p, CloseOf(bars, p.ticker))
  {
    PricesKnownSnoc(a, p, bars);
    assert (a + [p])[..|a|] == a;
  }

  lemma PricesKnownPrefix(book: seq<Position>, bars: map<Ticker, Bar>)
    requires PricesKnown(book, bars) && book != []
    ensures PricesKnown(book[..|book| - 1], bars) && KnownClose(bars, book[|book| - 1].ticker)
  {
    assert book == book[..|book| - 1] + [book[|book| - 1]];
    PricesKnownSnoc(book[..|book| - 1], book[|book| - 1], bars);
  }

  // ---------------------------------------------------------------------
  // Exits
  // ---------------------------------------------------------------------

  /**
   * The exit step splits the book: a position stays exactly when its exit
   * flag is not set and closes exactly when it is; nothing is lost or
   * duplicated.
   */
  lemma {:induction false} ExitPartition(book: seq<Position>, bars: map<Ticker, Bar>)
    requires PricesKnown(book, bars)
    ensures |Kept(book, bars)| + |Closed(book, bars)| == |book|
    ensures forall p :: p in Kept(book, bars) <==> p in book && !ShouldClose(p, bars)
    ensures forall p :: p in Closed(book, bars) <==> p in book && ShouldClose(p, bars)
  {
    if book != [] {
      var pre, p := book[..|book| - 1], book[|book| - 1];
      PricesKnownPrefix(book, bars);
      ExitPartition(pre, bars);
      assert book == pre + [p];
    }
  }

  /** The book's value splits between the kept and the closed positions. */
  lemma {:induction false} ExitSplitsEquity(book: seq<Position>, bars: map<Ticker, Bar>)
    requires PricesKnown(book, bars)
    ensures BookEquity(book, bars) == BookEquity(Kept(book, bars), bars) + BookEquity(Closed(book, bars), bars)
  {
    if book != [] {
      var pre, p := book[..|book| - 1], book[|book| - 1];
      PricesKnownPrefix(book, bars);
      ExitSplitsEquity(pre, bars);
      var kept, closed := Kept(pre, bars), Closed(pre, bars);
      if ShouldClose(p, bars) {
        assert Kept(book, bars) == kept;
        assert Closed(book, bars) == closed + [p];
        BookEquitySnoc(closed, p, bars);
      } else {
        assert Kept(book, bars) == kept + [p];
        assert Closed(book, bars) == closed;
        BookEquitySnoc(kept, p, bars);
      }
    }
  }

  /** The closes move the closed positions' value into cash: cash plus the kept book is the day's value. */
  lemma ExitPhaseValue(cash: real, book: seq<Position>, bars: map<Ticker, Bar>)
    requires PricesKnown(book, bars)
    ensures
      var l := ExitPhase(cash, book, bars);
      && |l.book| <= |book| && PricesKnown(l.book, bars)
      && DayValue(l.cash, l.book, bars) == DayValue(cash, book, bars)
  {
    ExitSplitsEquity(book, bars);
  }

  // ---------------------------------------------------------------------
  // Candidates
  // ---------------------------------------------------------------------

  /** Every ticker of the universe that is a candidate today appears in the list. */
  lemma {:induction false} CandidatesComplete(universe: seq<Ticker>, bars: map<Ticker, Bar>, held: set<Ticker>)
    ensures forall k :: 0 <= k < |Candidates(universe, bars, held)| ==> Candidates(universe, bars, held)[k].ticker in universe
    ensures forall t :: t in universe && IsCandidate(bars, held, t) ==>
      exists k :: 0 <= k < |Candidates(universe, bars, held)| && Candidates(universe, bars, held)[k].ticker == t
  {
    if universe != [] {
      var pre, t := universe[..|universe| - 1], universe[|universe| - 1];
      CandidatesComplete(pre, bars, held);
      var cs, all := Candidates(pre, bars, held), Candidates(universe, bars, held);
      assert forall k :: 0 <= k < |cs| ==> all[k] == cs[k];
      forall u | u in universe && IsCandidate(bars, held, u)
        ensures exists k :: 0 <= k < |all| && all[k].ticker == u
      {
        if u == t {
          assert all[|all| - 1].ticker == u;
        } else {
          assert u in pre by {
            var j :| 0 <= j < |universe| && universe[j] == u;
            assert pre[j] == u;
          }
          var k :| 0 <= k < |cs| && cs[k].ticker == u;
          assert all[k].ticker == u;
        }
      }
      forall k | 0 <= k < |all| ensures all[k].ticker in universe {
        if k < |cs| {
          assert cs[k].ticker in pre;
        }
      }
    }
  }

  /** A universe without repeated tickers gives candidates with distinct tickers. */
  lemma {:induction false} CandidatesDistinct(universe: seq<Ticker>, bars: map<Ticker, Bar>, held: set<Ticker>)
    requires Distinct(universe)
    ensures DistinctTickers(Candidates(universe, bars, held))
  {
    if universe != [] {
      var pre, t := universe[..|universe| - 1], universe[|universe| - 1];
      assert Distinct(pre) by {
        forall i, j | 0 <= i < j < |pre| ensures pre[i] != pre[j] {
          assert pre[i] == universe[i] && pre[j] == universe[j];
        }
      }
      CandidatesDistinct(pre, bars, held);
      CandidatesComplete(pre, bars, held);
      var cs, all := Candidates(pre, bars, held), Candidates(universe, bars, held);
      forall i, j | 0 <= i < j < |all| ensures all[i].ticker != all[j].ticker {
        if j == |cs| {
          assert all[i] == cs[i] && cs[i].ticker in pre;
          var k :| 0 <= k < |pre| && pre[k] == cs[i].ticker;
          assert universe[k] == pre[k];
        } else {
          assert all[i] == cs[i] && all[j] == cs[j];
        }
      }
    }
  }

  // ---------------------------------------------------------------------
  // Admission
  // ---------------------------------------------------------------------

  /** What every position the simulator opens satisfies. */
  predicate WellFormed(cfg: LongConfig, p: Position) {
    p.quantity != 0.0
    && (cfg.leverage > 1.0 ==> p.quantity == p.quantity.Floor as real)
    && p.investmentCost >= 5.0 && p.notional == p.investmentCost * cfg.leverage
  }

  /** `p` was opened from candidate `c` on `date`, at the candidate's price. */
  predicate OpenedFrom(cfg: LongConfig, date: int, c: Candidate, p: Position) {
    p.ticker == c.ticker && p.buyDate == date && p.notional == p.quantity * c.price && WellFormed(cfg, p)
  }

  /** Without leverage the quantity is not floored, so the margin is exactly the slot's share of the cash. */
  lemma UnleveragedSpendsShare(cfg: LongConfig, cash: real, slots: int, price: real)
    requires ValidLongConfig(cfg) && cfg.leverage <= 1.0 && slots >= 1 && price != 0.0
    ensures Margin(cfg, Quantity(cfg, cash, slots, price), price) == cash / slots as real
  {
    var x := cash / slots as real * cfg.leverage;
    assert Quantity(cfg, cash, slots, price) == x / price;
    assert x / price * price == x;
  }

  /** With leverage the quantity is a whole number and its margin is at most the slot's share of the cash. */
  lemma LeveragedWithinShare(cfg: LongConfig, cash: real, slots: int, price: real)
    requires cfg.leverage > 1.0 && slots >= 1 && price > 0.0
    ensures Quantity(cfg, cash, slots, price) == Quantity(cfg, cash, slots, price).Floor as real
    ensures Margin(cfg, Quantity(cfg, cash, slots, price), price) <= cash / slots as real
  {
    SwitchingProofs.SizingBound(cash, slots as real, cfg.leverage, price, (cash / slots as real * cfg.leverage / price).Floor);
  }

  /** A bought candidate is opened at its price on the day, costs at least 5.0 and no more than the cash. */
  lemma TryBuySound(cfg: LongConfig, date: int, l: Ledger, c: Candidate)
    requires ValidLongConfig(cfg) && |l.book| < cfg.maxPositions && c.price != 0.0
    ensures TryBuy(cfg, date, l, c).Some? ==>
      var p := TryBuy(cfg, date, l, c).value;
      OpenedFrom(cfg, date, c, p) && 5.0 <= p.investmentCost <= l.cash
  {
    if TryBuy(cfg, date, l, c).Some? {
      var p := TryBuy(cfg, date, l, c).value;
      assert p.notional == p.investmentCost * cfg.leverage;
    }
  }

  /**
   * With a positive price and cash that is not negative, the `cash >= cost`
   * guard never refuses a candidate: the margin is at most the slot's share
   * of the cash, which is at most the cash.
   */
  lemma CashGuardNeverBinds(cfg: LongConfig, date: int, l: Ledger, c: Candidate)
    requires ValidLongConfig(cfg) && |l.book| < cfg.maxPositions && c.price > 0.0 && l.cash >= 0.0
    ensures
      var q := Quantity(cfg, l.cash, cfg.maxPositions - |l.book|, c.price);
      TryBuy(cfg, date, l, c).Some? <==> q != 0.0 && Margin(cfg, q, c.price) >= 5.0
  {
    var slots := cfg.maxPositions - |l.book|;
    if cfg.leverage > 1.0 {
      LeveragedWithinShare(cfg, l.cash, slots, c.price);
    } else {
      UnleveragedSpendsShare(cfg, l.cash, slots, c.price);
    }
    SwitchingProofs.PerSlotAtMostCash(l.cash, slots as real);
  }

  /** A position opened at its candidate's price is worth its margin there. */
  lemma OpenedAtZeroPnl(cfg: LongConfig, date: int, c: Candidate, p: Position)
    requires OpenedFrom(cfg, date, c, p)
    ensures Proceeds(p, c.price) == p.investmentCost
  {
    assert c.price * p.quantity == p.notional;
  }

  /**
   * Admission appends to the book and never beyond MAX_CONCURRENT_POSITIONS,
   * opens at most one position per candidate, only ever spends cash, keeps it
   * non-negative when it starts non-negative, and opens nothing with less
   * than 5.0 of cash.
   */
  lemma {:induction false} AdmitAllBounds(cfg: LongConfig, date: int, l: Ledger, cands: seq<Candidate>)
    requires ValidLongConfig(cfg) && NonZeroPrices(cands) && |l.book| <= cfg.maxPositions
    ensures
      var r := AdmitAll(cfg, date, l, cands);
      && |l.book| <= |r.book| <= cfg.maxPositions
      && |r.book| - |l.book| <= |cands|
      && r.book[..|l.book|] == l.book
      && r.cash <= l.cash
      && (l.cash >= 0.0 ==> r.cash >= 0.0)
      && (l.cash < 5.0 ==> r == l)
    decreases |cands|
  {
    if cands != [] && |l.book| < cfg.maxPositions {
      TryBuySound(cfg, date, l, cands[0]);
      assert NonZeroPrices(cands[1..]) by {
        assert forall k :: 0 <= k < |cands| - 1 ==> cands[1..][k] == cands[k + 1];
      }
      match TryBuy(cfg, date, l, cands[0])
      case None =>
        AdmitAllBounds(cfg, date, l, cands[1..]);
      case Some(p) =>
        var next := Ledger(l.cash - p.investmentCost, l.book + [p]);
        AdmitAllBounds(cfg, date, next, cands[1..]);
        var r := AdmitAll(cfg, date, next, cands[1..]);
        assert r.book[..|l.book|] == r.book[..|next.book|][..|l.book|];
    }
  }

  /** Every position admission adds was opened from one of the candidates, on the day. */
  lemma {:induction false} AdmitAllOpens(cfg: LongConfig, date: int, l: Ledger, cands: seq<Candidate>)
    requires ValidLongConfig(cfg) && NonZeroPrices(cands) && |l.book| <= cfg.maxPositions
    ensures
      var r := AdmitAll(cfg, date, l, cands);
      |l.book| <= |r.book| &&
      forall i :: |l.book| <= i < |r.book| ==> exists k :: 0 <= k < |cands| && OpenedFrom(cfg, date, cands[k], r.book[i])
    decreases |cands|
  {
    AdmitAllBounds(cfg, date, l, cands);
    if cands != [] && |l.book| < cfg.maxPositions {
      TryBuySound(cfg, date, l, cands[0]);
      var rest := cands[1..];
      assert forall k :: 0 <= k < |rest| ==> rest[k] == cands[k + 1];
      match TryBuy(cfg, date, l, cands[0])
      case None =>
        AdmitAllOpens(cfg, date, l, rest);
        var r := AdmitAll(cfg, date, l, rest);
        forall i | |l.book| <= i < |r.book|
          ensures exists k :: 0 <= k < |cands| && OpenedFrom(cfg, date, cands[k], r.book[i])
        {
          var k :| 0 <= k < |rest| && OpenedFrom(cfg, date, rest[k], r.book[i]);
          assert rest[k] == cands[k + 1];
        }
      case Some(p) =>
        var next := Ledger(l.cash - p.investmentCost, l.book + [p]);
        AdmitAllOpens(cfg, date, next, rest);
        AdmitAllBounds(cfg, date, next, rest);
        var r := AdmitAll(cfg, date, next, rest);
        forall i | |l.book| <= i < |r.book|
          ensures exists k :: 0 <= k < |cands| && OpenedFrom(cfg, date, cands[k], r.book[i])
        {
          if i == |l.book| {
            assert r.book[i] == r.book[..|next.book|][i] == p;
          } else {
            var k :| 0 <= k < |rest| && OpenedFrom(cfg, date, rest[k], r.book[i]);
            assert rest[k] == cands[k + 1];
          }
        }
    }
  }

  /** The tickers of the book are pairwise different: the positions are a dict keyed by ticker. */
  predicate UniqueTickers(book: seq<Position>) {
    forall i, j :: 0 <= i < j < |book| ==> book[i].ticker != book[j].ticker
  }

  lemma HeldTickersSnoc(book: seq<Position>, p: Position, t: Ticker)
    ensures t in HeldTickers(book + [p]) <==> t in HeldTickers(book) || t == p.ticker
  {
    if t in HeldTickers(book) {
      var q :| q in book && q.ticker == t;
      assert q in book + [p];
    }
    if t == p.ticker {
      assert p in book + [p];
    }
  }

  lemma UniqueTickersSnoc(book: seq<Position>, p: Position)
    requires UniqueTickers(book) && p.ticker !in HeldTickers(book)
    ensures UniqueTickers(book + [p])
  {
    var b := book + [p];
    forall i, j | 0 <= i < j < |b| ensures b[i].ticker != b[j].ticker {
      if j == |book| {
        assert b[i] == book[i] && book[i] in book;
      } else {
        assert b[i] == book[i] && b[j] == book[j];
      }
    }
  }

  /** Admitting candidates with distinct, unheld tickers keeps the tickers of the book unique. */
  lemma {:induction false} AdmitAllKeepsUnique(cfg: LongConfig, date: int, l: Ledger, cands: seq<Candidate>)
    requires ValidLongConfig(cfg) && NonZeroPrices(cands) && |l.book| <= cfg.maxPositions && UniqueTickers(l.book)
    requires DistinctTickers(cands) && forall k :: 0 <= k < |cands| ==> cands[k].ticker !in HeldTickers(l.book)
    ensures UniqueTickers(AdmitAll(cfg, date, l, cands).book)
    decreases |cands|
  {
    if cands != [] && |l.book| < cfg.maxPositions {
      TryBuySound(cfg, date, l, cands[0]);
      var rest := cands[1..];
      assert forall k :: 0 <= k < |rest| ==> rest[k] == cands[k + 1];
      assert DistinctTickers(rest) by {
        forall i, j | 0 <= i < j < |rest| ensures rest[i].ticker != rest[j].ticker {
          assert rest[i] == cands[i + 1] && rest[j] == cands[j + 1];
        }
      }
      match TryBuy(cfg, date, l, cands[0])
      case None =>
        AdmitAllKeepsUnique(cfg, date, l, rest);
      case Some(p) =>
        var next := Ledger(l.cash - p.investmentCost, l.book + [p]);
        UniqueTickersSnoc(l.book, p);
        forall k | 0 <= k < |rest| ensures rest[k].ticker !in HeldTickers(next.book) {
          HeldTickersSnoc(l.book, p, rest[k].ticker);
        }
        AdmitAllKeepsUnique(cfg, date, next, rest);
    }
  }

  /**
   * Opening a position moves its margin from cash into the book at zero
   * P&L, so admission leaves cash plus the book at the day's closes
   * unchanged.
   */
  lemma {:induction false} AdmitAllConservesValue(cfg: LongConfig, date: int, l: Ledger, cands: seq<Candidate>, bars: map<Ticker, Bar>)
    requires ValidLongConfig(cfg) && NonZeroPrices(cands) && |l.book| <= cfg.maxPositions && PricesKnown(l.book, bars)
    requires forall k :: 0 <= k < |cands| ==>
      KnownClose(bars, cands[k].ticker) && cands[k].price == CloseOf(bars, cands[k].ticker)
    ensures PricesKnown(AdmitAll(cfg, date, l, cands).book, bars)
    ensures DayValue(AdmitAll(cfg, date, l, cands).cash, AdmitAll(cfg, date, l, cands).book, bars)
      == DayValue(l.cash, l.book, bars)
    decreases |cands|
  {
    if cands != [] && |l.book| < cfg.maxPositions {
      TryBuySound(cfg, date, l, cands[0]);
      var rest := cands[1..];
      assert forall k :: 0 <= k < |rest| ==> rest[k] == cands[k + 1];
      match TryBuy(cfg, date, l, cands[0])
      case None =>
        AdmitAllConservesValue(cfg, date, l, rest, bars);
      case Some(p) =>
        var next := Ledger(l.cash - p.investmentCost, l.book + [p]);
        OpenedAtZeroPnl(cfg, date, cands[0], p);
        BookEquitySnoc(l.book, p, bars);
        AdmitAllConservesValue(cfg, date, next, rest, bars);
    }
  }

  /**
   * The whole ranked list is scanned: the first candidate buys no whole unit
   * (2000.0 a share against 1250.0 of notional), so with one slot open the
   * second one is bought, while the switching simulator, which tries only the
   * first `open_slots` candidates, opens nothing.
   */
  lemma WholeListScanExample(date: int)
    ensures
      var cfg := DefaultLongConfig.(maxPositions := 1);
      var a, b := Candidate("A", 1.0, 2000.0, None, None), Candidate("B", 2.0, 10.0, None, None);
      AdmitAll(cfg, date, Ledger(250.0, []), [a, b]) == Ledger(0.0, [Position("B", 125.0, date, 250.0, 1250.0)])
    ensures
      var scfg := SwitchingRules.DefaultConfig.(maxPositions := 1, initialCapital := 250.0);
      var a, b := Candidate("A", 1.0, 2000.0, None, None), Candidate("B", 2.0, 10.0, None, None);
      SwitchingRules.AdmitAll(scfg, SwitchingRules.Normal, date, SwitchingRules.Ledger(250.0, []), [a, b][..1])
        == SwitchingRules.Ledger(250.0, [])
  {
    var cfg := DefaultLongConfig.(maxPositions := 1);
    var a, b := Candidate("A", 1.0, 2000.0, None, None), Candidate("B", 2.0, 10.0, None, None);
    assert (250.0 / 1 as real * 5.0 / 2000.0).Floor == 0;
    assert (250.0 / 1 as real * 5.0 / 10.0).Floor == 125;
    assert TryBuy(cfg, date, Ledger(250.0, []), a) == None;
    assert [a, b][1..] == [b];
    assert Margin(cfg, 125.0, 10.0) == 250.0;
    assert TryBuy(cfg, date, Ledger(250.0, []), b) == Some(Position("B", 125.0, date, 250.0, 1250.0));
    assert [b][1..] == [];
    var l1 := Ledger(0.0, [Position("B", 125.0, date, 250.0, 1250.0)]);
    assert AdmitAll(cfg, date, l1, []) == l1;
    assert AdmitAll(cfg, date, Ledger(250.0, []), [b]) == l1;
    var scfg := SwitchingRules.DefaultConfig.(maxPositions := 1, initialCapital := 250.0);
    assert [a, b][..1] == [a] && [a][1..] == [];
    assert SwitchingRules.TryAdmit(scfg, SwitchingRules.Normal, date, SwitchingRules.Ledger(250.0, []), a) == None;
  }

  // ---------------------------------------------------------------------
  // The entry phase as a whole
  // ---------------------------------------------------------------------

  /** Everything that admission relies on about the ranked candidates. */
  predicate Admissible(cands: seq<Candidate>, bars: map<Ticker, Bar>, held: set<Ticker>) {
    DistinctTickers(cands) && NonZeroPrices(cands)
    && forall k :: 0 <= k < |cands| ==>
         cands[k].ticker !in held && KnownClose(bars, cands[k].ticker) && cands[k].price == CloseOf(bars, cands[k].ticker)
  }

  /** The ranked candidates are admissible. */
  lemma RankedAdmissible(spec: SortSpec, universe: seq<Ticker>, bars: map<Ticker, Bar>, held: set<Ticker>)
    requires Distinct(universe) && EntryPricesNonZero(bars)
    ensures Admissible(Sort(spec, Candidates(universe, bars, held)), bars, held)
  {
    var cs := Candidates(universe, bars, held);
    var ranked := Sort(spec, cs);
    CandidatesDistinct(universe, bars, held);
    SortKeepsDistinct(spec, cs);
    SortMembers(spec, cs);
    RankedNonZero(spec, universe, bars, held);
    forall k | 0 <= k < |ranked|
      ensures ranked[k].ticker !in held && KnownClose(bars, ranked[k].ticker) && ranked[k].price == CloseOf(bars, ranked[k].ticker)
    {
      assert ranked[k] in cs;
    }
  }

  /**
   * The entry phase changes nothing when no slot is open; otherwise it only
   * appends, never beyond MAX_CONCURRENT_POSITIONS, only spends cash and
   * keeps it non-negative.
   */
  lemma EntryPhaseBounds(cfg: LongConfig, universe: seq<Ticker>, day: Day, l: Ledger)
    requires ValidLongConfig(cfg) && EntryPricesNonZero(day.bars) && |l.book| <= cfg.maxPositions
    ensures
      var r := EntryPhase(cfg, universe, day, l);
      && (|l.book| == cfg.maxPositions ==> r == l)
      && |l.book| <= |r.book| <= cfg.maxPositions
      && r.book[..|l.book|] == l.book
      && r.cash <= l.cash
      && (l.cash >= 0.0 ==> r.cash >= 0.0)
  {
    if cfg.maxPositions - |l.book| > 0 {
      var spec := SortSpecOf(cfg.ranking);
      var held := HeldTickers(l.book);
      RankedNonZero(spec, universe, day.bars, held);
      AdmitAllBounds(cfg, day.date, l, Sort(spec, Candidates(universe, day.bars, held)));
    }
  }

  /** When the universe has no repeated ticker, the entry phase keeps one position per ticker. */
  lemma EntryPhaseKeepsUnique(cfg: LongConfig, universe: seq<Ticker>, day: Day, l: Ledger)
    requires ValidLongConfig(cfg) && EntryPricesNonZero(day.bars) && |l.book| <= cfg.maxPositions
    requires Distinct(universe) && UniqueTickers(l.book)
    ensures UniqueTickers(EntryPhase(cfg, universe, day, l).book)
  {
    if cfg.maxPositions - |l.book| > 0 {
      var spec := SortSpecOf(cfg.ranking);
      var held := HeldTickers(l.book);
      RankedAdmissible(spec, universe, day.bars, held);
      AdmitAllKeepsUnique(cfg, day.date, l, Sort(spec, Candidates(universe, day.bars, held)));
    }
  }

  /** The entry phase moves cash into margin without changing the day's value. */
  lemma EntryPhaseConservesValue(cfg: LongConfig, universe: seq<Ticker>, day: Day, l: Ledger)
    requires ValidLongConfig(cfg) && EntryPricesNonZero(day.bars) && |l.book| <= cfg.maxPositions
    requires Distinct(universe) && PricesKnown(l.book, day.bars)
    ensures
      var r := EntryPhase(cfg, universe, day, l);
      PricesKnown(r.book, day.bars) && DayValue(r.cash, r.book, day.bars) == DayValue(l.cash, l.book, day.bars)
  {
    if cfg.maxPositions - |l.book| > 0 {
      var spec := SortSpecOf(cfg.ranking);
      var held := HeldTickers(l.book);
      RankedAdmissible(spec, universe, day.bars, held);
      AdmitAllConservesValue(cfg, day.date, l, Sort(spec, Candidates(universe, day.bars, held)), day.bars);
    }
  }

  /**
   * Each position the entry phase opens is a candidate of the day: a ticker
   * of the universe that was not held, with the buy flag and a known close,
   * opened at that close on the day.
   */
  lemma EntryPhaseOpensCandidates(cfg: LongConfig, universe: seq<Ticker>, day: Day, l: Ledger)
    requires ValidLongConfig(cfg) && EntryPricesNonZero(day.bars) && |l.book| <= cfg.maxPositions
    ensures
      var r := EntryPhase(cfg, universe, day, l);
      |l.book| <= |r.book| &&
      forall i :: |l.book| <= i < |r.book| ==>
        var p := r.book[i];
        && p.ticker in universe && IsCandidate(day.bars, HeldTickers(l.book), p.ticker)
        && OpenedFrom(cfg, day.date, CandidateOf(day.bars, HeldTickers(l.book), p.ticker), p)
  {
    EntryPhaseBounds(cfg, universe, day, l);
    if cfg.maxPositions - |l.book| > 0 {
      var spec := SortSpecOf(cfg.ranking);
      var held := HeldTickers(l.book);
      var cs := Candidates(universe, day.bars, held);
      var ranked := Sort(spec, cs);
      RankedNonZero(spec, universe, day.bars, held);
      AdmitAllOpens(cfg, day.date, l, ranked);
      CandidatesComplete(universe, day.bars, held);
      SortMembers(spec, cs);
      var r := AdmitAll(cfg, day.date, l, ranked);
      forall i | |l.book| <= i < |r.book|
        ensures r.book[i].ticker in universe && IsCandidate(day.bars, held, r.book[i].ticker)
        ensures OpenedFrom(cfg, day.date, CandidateOf(day.bars, held, r.book[i].ticker), r.book[i])
      {
        var k :| 0 <= k < |ranked| && OpenedFrom(cfg, day.date, ranked[k], r.book[i]);
        assert ranked[k] in cs;
        var j :| 0 <= j < |cs| && cs[j] == ranked[k];
      }
    }
  }

  // ---------------------------------------------------------------------
  // The state invariant of a run
  // ---------------------------------------------------------------------

  predicate AllWellFormed(cfg: LongConfig, book: seq<Position>) {
    forall i :: 0 <= i < |book| ==> WellFormed(cfg, book[i])
  }

  /**
   * What holds of the simulator's state at the end of every day: at most
   * MAX_CONCURRENT_POSITIONS positions, one per ticker, each as admission
   * opens them, and an empty book once the run stopped on a margin call.
   */
  predicate ValidState(cfg: LongConfig, s: LongState) {
    |s.book| <= cfg.maxPositions && UniqueTickers(s.book) && AllWellFormed(cfg, s.book)
    && (s.halted ==> s.book == [])
  }

  /** The state before the first day is valid. */
  lemma InitialStateValid(cfg: LongConfig)
    ensures ValidState(cfg, InitialState(cfg))
    ensures InitialState(cfg).cash == cfg.initialCapital && !InitialState(cfg).halted
  {
  }

  lemma {:induction false} KeptUniqueTickers(book: seq<Position>, bars: map<Ticker, Bar>)
    requires PricesKnown(book, bars) && UniqueTickers(book)
    ensures UniqueTickers(Kept(book, bars))
  {
    if book != [] {
      var pre, p := book[..|book| - 1], book[|book| - 1];
      PricesKnownPrefix(book, bars);
      assert UniqueTickers(pre) by {
        assert forall i :: 0 <= i < |pre| ==> pre[i] == book[i];
      }
      KeptUniqueTickers(pre, bars);
      var kept := Kept(pre, bars);
      if !ShouldClose(p, bars) {
        assert Kept(book, bars) == kept + [p];
        assert p.ticker !in HeldTickers(kept);
        UniqueTickersSnoc(kept, p);
      } else {
        assert Kept(book, bars) == kept;
      }
    }
  }

  /** The exits keep the shape of the book: fewer positions, unique tickers, all well formed. */
  lemma ExitPhaseKeepsShape(cfg: LongConfig, cash: real, book: seq<Position>, bars: map<Ticker, Bar>)
    requires PricesKnown(book, bars) && UniqueTickers(book) && AllWellFormed(cfg, book)
    ensures
      var l := ExitPhase(cash, book, bars);
      |l.book| <= |book| && UniqueTickers(l.book) && AllWellFormed(cfg, l.book)
  {
    KeptUniqueTickers(book, bars);
    var kept := Kept(book, bars);
    forall i | 0 <= i < |kept| ensures WellFormed(cfg, kept[i]) {
      assert kept[i] in kept;
    }
  }

  /** The entry phase keeps every position well formed. */
  lemma EntryPhaseKeepsWellFormed(cfg: LongConfig, universe: seq<Ticker>, day: Day, l: Ledger)
    requires ValidLongConfig(cfg) && EntryPricesNonZero(day.bars) && |l.book| <= cfg.maxPositions
    requires AllWellFormed(cfg, l.book)
    ensures AllWellFormed(cfg, EntryPhase(cfg, universe, day, l).book)
  {
    var r := EntryPhase(cfg, universe, day, l);
    EntryPhaseBounds(cfg, universe, day, l);
    EntryPhaseOpensCandidates(cfg, universe, day, l);
    forall i | 0 <= i < |r.book| ensures WellFormed(cfg, r.book[i]) {
      if i < |l.book| {
        assert r.book[i] == r.book[..|l.book|][i] == l.book[i];
      }
    }
  }

  /** A trading day leaves a state that satisfies the invariant. */
  lemma TradingDayValid(cfg: LongConfig, universe: seq<Ticker>, s: LongState, day: Day)
    requires ValidLongConfig(cfg) && EntryPricesNonZero(day.bars) && Distinct(universe)
    requires PricesKnown(s.book, day.bars) && ValidState(cfg, s)
    ensures ValidState(cfg, TradingDay(cfg, universe, s, day))
  {
    var l := ExitPhase(s.cash, s.book, day.bars);
    ExitPhaseKeepsShape(cfg, s.cash, s.book, day.bars);
    EntryPhaseBounds(cfg, universe, day, l);
    EntryPhaseKeepsUnique(cfg, universe, day, l);
    EntryPhaseKeepsWellFormed(cfg, universe, day, l);
  }

  /** Every day keeps the state invariant. */
  lemma StepPreservesValid(cfg: LongConfig, universe: seq<Ticker>, s: LongState, day: Day)
    requires ValidLongConfig(cfg) && EntryPricesNonZero(day.bars) && Distinct(universe)
    requires PricesKnown(s.book, day.bars) && ValidState(cfg, s)
    ensures ValidState(cfg, StepSpec(cfg, universe, s, day))
  {
    if DayValue(s.cash, s.book, day.bars) > 0.0 {
      TradingDayValid(cfg, universe, s, day);
    }
  }

  // ---------------------------------------------------------------------
  // One whole day
  // ---------------------------------------------------------------------

  /**
   * On a day whose value is not positive every position is closed at the
   * close with one trade each, the book ends empty, the run is halted and
   * the cash left, which is the day's value, is the last snapshot.
   */
  lemma MarginCallLiquidates(cfg: LongConfig, universe: seq<Ticker>, s: LongState, day: Day)
    requires ValidLongConfig(cfg) && PricesKnown(s.book, day.bars) && EntryPricesNonZero(day.bars)
    requires DayValue(s.cash, s.book, day.bars) <= 0.0
    ensures
      var r := StepSpec(cfg, universe, s, day);
      && r.halted && r.book == []
      && |r.trades| == |s.trades| + |s.book|
      && r.trades[..|s.trades|] == s.trades
      && (forall i :: |s.trades| <= i < |r.trades| ==>
            r.trades[i] == CloseTrade(s.book[i - |s.trades|], CloseOf(day.bars, s.book[i - |s.trades|].ticker), day.date))
      && r.cash == DayValue(s.cash, s.book, day.bars)
      && r.history == s.history + [Snapshot(day.date, r.cash)]
  {
  }

  /**
   * A day stops the run exactly when its value is not positive, and every
   * day appends one snapshot: the value computed before any close or open
   * (on a margin call it is also the cash left).
   */
  lemma StepSnapshot(cfg: LongConfig, universe: seq<Ticker>, s: LongState, day: Day)
    requires ValidLongConfig(cfg) && PricesKnown(s.book, day.bars) && EntryPricesNonZero(day.bars)
    ensures
      var r := StepSpec(cfg, universe, s, day);
      && (r.halted <==> DayValue(s.cash, s.book, day.bars) <= 0.0)
      && r.history == s.history + [Snapshot(day.date, DayValue(s.cash, s.book, day.bars))]
  {
  }

  /**
   * Closes and opens never change the value: after a trading day cash plus
   * the new book at the day's closes is the day's value, and after a margin
   * call the cash is.
   */
  lemma StepConservesValue(cfg: LongConfig, universe: seq<Ticker>, s: LongState, day: Day)
    requires ValidLongConfig(cfg) && PricesKnown(s.book, day.bars) && EntryPricesNonZero(day.bars)
    requires Distinct(universe) && |s.book| <= cfg.maxPositions
    ensures
      var r := StepSpec(cfg, universe, s, day);
      && PricesKnown(r.book, day.bars)
      && DayValue(r.cash, r.book, day.bars) == DayValue(s.cash, s.book, day.bars)
  {
    if DayValue(s.cash, s.book, day.bars) > 0.0 {
      var l := ExitPhase(s.cash, s.book, day.bars);
      ExitPhaseValue(s.cash, s.book, day.bars);
      EntryPhaseConservesValue(cfg, universe, day, l);
    }
  }

  /** Trades are only ever appended: one per position on a margin call, one per close otherwise. */
  lemma StepTrades(cfg: LongConfig, universe: seq<Ticker>, s: LongState, day: Day)
    requires ValidLongConfig(cfg) && PricesKnown(s.book, day.bars) && EntryPricesNonZero(day.bars)
    ensures
      var r := StepSpec(cfg, universe, s, day);
      && |s.trades| <= |r.trades|
      && r.trades[..|s.trades|] == s.trades
      && |r.trades| == |s.trades| + (if r.halted then |s.book| else |Closed(s.book, day.bars)|)
  {
  }
}
