/**
 * The date loop of the long-only simulator as a function: every date of
 * the master index in order, dates before START_DATE skipped, stopping
 * after a margin call.
 */
module LongOnlyRun {
  import opened MarketData
  import opened LongOnlyRules
  import opened LongOnlyProofs

  /**
   * The frames as the data preparation leaves them: every close known on
   * one day is known on every later day (forward fill), and no row with the
   * buy flag has a zero close.
   */
  ghost predicate Prepared(days: seq<Day>) {
    && (forall i, j, t :: 0 <= i <= j < |days| && KnownClose(days[i].bars, t) ==> KnownClose(days[j].bars, t))
    && (forall k :: 0 <= k < |days| ==> EntryPricesNonZero(days[k].bars))
  }

  /** A book whose closes are known on one day has them on the next, and the rest stays prepared. */
  lemma PreparedLater(days: seq<Day>, book: seq<Position>)
    requires Prepared(days) && |days| >= 2 && PricesKnown(book, days[0].bars)
    ensures Prepared(days[1..]) && PricesKnown(book, days[1].bars)
  {
    var rest := days[1..];
    forall i, j, t | 0 <= i <= j < |rest| && KnownClose(rest[i].bars, t) ensures KnownClose(rest[j].bars, t) {
      assert rest[i] == days[i + 1] && rest[j] == days[j + 1];
    }
    forall k | 0 <= k < |rest| ensures EntryPricesNonZero(rest[k].bars) {
      assert rest[k] == days[k + 1];
    }
    forall k | 0 <= k < |book| ensures KnownClose(days[1].bars, book[k].ticker) {
      assert KnownClose(days[0].bars, book[k].ticker);
    }
  }

  /**
   * The loop from state `s` over `days`: a date before START_DATE is
   * skipped, every other date is one step, and the loop stops after the
   * date that triggers a margin call.
   */
  function RunFrom(cfg: LongConfig, universe: seq<Ticker>, s: LongState, days: seq<Day>): LongState
    requires ValidLongConfig(cfg) && Distinct(universe) && ValidState(cfg, s) && Prepared(days)
    requires days != [] ==> PricesKnown(s.book, days[0].bars)
    decreases |days|
  {
    if days == [] then s
    else if days[0].date < cfg.startDate then
      if |days| == 1 then s
      else
        PreparedLater(days, s.book);
        RunFrom(cfg, universe, s, days[1..])
    else
      var r := StepSpec(cfg, universe, s, days[0]);
      StepPreservesValid(cfg, universe, s, days[0]);
      StepConservesValue(cfg, universe, s, days[0]);
      if r.halted || |days| == 1 then r
      else
        PreparedLater(days, r.book);
        RunFrom(cfg, universe, r, days[1..])
  }

  /** `run_simulation`: the loop over the master index from the initial state. */
  function Simulate(cfg: LongConfig, universe: seq<Ticker>, days: seq<Day>): LongState
    requires ValidLongConfig(cfg) && Distinct(universe) && Prepared(days)
  {
    InitialStateValid(cfg);
    RunFrom(cfg, universe, InitialState(cfg), days)
  }

  /** The dates of `days` that the loop does not skip, in order. */
  function Processed(days: seq<Day>, start: int): seq<int> {
    if days == [] then []
    else (if days[0].date >= start then [days[0].date] else []) + Processed(days[1..], start)
  }

  /** The snapshots `h` carry the first `|h|` dates of `dates`, in order. */
  predicate DatedBy(h: seq<Snapshot>, dates: seq<int>)
    decreases |h|
  {
    |h| <= |dates| && (h == [] || (h[0].date == dates[0] && DatedBy(h[1..], dates[1..])))
  }

  /** Read index by index, `DatedBy` says that snapshot `k` carries date `k`. */
  lemma {:induction false} DatedByIndex(h: seq<Snapshot>, dates: seq<int>)
    ensures DatedBy(h, dates) <==> |h| <= |dates| && forall k :: 0 <= k < |h| ==> h[k].date == dates[k]
    decreases |h|
  {
    if h != [] && |h| <= |dates| {
      DatedByIndex(h[1..], dates[1..]);
      if forall k :: 0 <= k < |h| ==> h[k].date == dates[k] {
        forall k | 0 <= k < |h| - 1 ensures h[1..][k].date == dates[1..][k] {
          assert h[1..][k] == h[k + 1] && dates[1..][k] == dates[k + 1];
        }
      }
      if DatedBy(h, dates) {
        forall k | 0 <= k < |h| ensures h[k].date == dates[k] {
          if k > 0 {
            assert h[1..][k - 1] == h[k] && dates[1..][k - 1] == dates[k];
          }
        }
      }
    }
  }

  /**
   * A run keeps the state invariant; when it stops on a margin call the
   * book is empty and the last snapshot is the cash left.
   */
  lemma {:induction false} RunFromValid(cfg: LongConfig, universe: seq<Ticker>, s: LongState, days: seq<Day>)
    requires ValidLongConfig(cfg) && Distinct(universe) && ValidState(cfg, s) && Prepared(days)
    requires days != [] ==> PricesKnown(s.book, days[0].bars)
    requires !s.halted
    ensures
      var r := RunFrom(cfg, universe, s, days);
      && ValidState(cfg, r)
      && (r.halted ==> r.book == [] && r.history != [] && r.history[|r.history| - 1].value == r.cash)
    decreases |days|
  {
    if days != [] {
      if days[0].date < cfg.startDate {
        if |days| > 1 {
          PreparedLater(days, s.book);
          RunFromValid(cfg, universe, s, days[1..]);
        }
      } else {
        var r := StepSpec(cfg, universe, s, days[0]);
        StepPreservesValid(cfg, universe, s, days[0]);
        StepConservesValue(cfg, universe, s, days[0]);
        MarginCallSnapshot(cfg, universe, s, days[0]);
        if !r.halted && |days| > 1 {
          PreparedLater(days, r.book);
          RunFromValid(cfg, universe, r, days[1..]);
        }
      }
    }
  }

  /** A day that halts records the cash left as its snapshot. */
  lemma MarginCallSnapshot(cfg: LongConfig, universe: seq<Ticker>, s: LongState, day: Day)
    requires ValidLongConfig(cfg) && PricesKnown(s.book, day.bars) && EntryPricesNonZero(day.bars)
    ensures
      var r := StepSpec(cfg, universe, s, day);
      r.halted ==> r.history != [] && r.history[|r.history| - 1].value == r.cash
  {
    if DayValue(s.cash, s.book, day.bars) <= 0.0 {
      MarginCallLiquidates(cfg, universe, s, day);
    }
  }

  /** A run only appends trades. */
  lemma {:induction false} RunFromTrades(cfg: LongConfig, universe: seq<Ticker>, s: LongState, days: seq<Day>)
    requires ValidLongConfig(cfg) && Distinct(universe) && ValidState(cfg, s) && Prepared(days)
    requires days != [] ==> PricesKnown(s.book, days[0].bars)
    ensures
      var r := RunFrom(cfg, universe, s, days);
      |s.trades| <= |r.trades| && r.trades[..|s.trades|] == s.trades
    decreases |days|
  {
    if days != [] {
      if days[0].date < cfg.startDate {
        if |days| > 1 {
          PreparedLater(days, s.book);
          RunFromTrades(cfg, universe, s, days[1..]);
        }
      } else {
        var r := StepSpec(cfg, universe, s, days[0]);
        StepPreservesValid(cfg, universe, s, days[0]);
        StepConservesValue(cfg, universe, s, days[0]);
        StepTrades(cfg, universe, s, days[0]);
        if !r.halted && |days| > 1 {
          PreparedLater(days, r.book);
          RunFromTrades(cfg, universe, r, days[1..]);
          var f := RunFrom(cfg, universe, r, days[1..]);
          assert f.trades[..|s.trades|] == f.trades[..|r.trades|][..|s.trades|];
        }
      }
    }
  }

  /**
   * A run records one snapshot per date it does not skip, dated with that
   * date, in order; without a margin call every such date is recorded.
   */
  lemma {:induction false} RunFromHistory(cfg: LongConfig, universe: seq<Ticker>, s: LongState, days: seq<Day>)
    requires ValidLongConfig(cfg) && Distinct(universe) && ValidState(cfg, s) && Prepared(days)
    requires days != [] ==> PricesKnown(s.book, days[0].bars)
    ensures
      var r := RunFrom(cfg, universe, s, days);
      var dates := Processed(days, cfg.startDate);
      && |s.history| <= |r.history|
      && r.history[..|s.history|] == s.history
      && DatedBy(r.history[|s.history|..], dates)
      && (!r.halted ==> |r.history| == |s.history| + |dates|)
    decreases |days|
  {
    if days != [] {
      var dates := Processed(days, cfg.startDate);
      if days[0].date < cfg.startDate {
        assert dates == Processed(days[1..], cfg.startDate);
        if |days| > 1 {
          PreparedLater(days, s.book);
          RunFromHistory(cfg, universe, s, days[1..]);
        }
      } else {
        var r := StepSpec(cfg, universe, s, days[0]);
        StepPreservesValid(cfg, universe, s, days[0]);
        StepConservesValue(cfg, universe, s, days[0]);
        StepSnapshot(cfg, universe, s, days[0]);
        assert dates == [days[0].date] + Processed(days[1..], cfg.startDate);
        if !r.halted && |days| > 1 {
          PreparedLater(days, r.book);
          assert RunFrom(cfg, universe, s, days) == RunFrom(cfg, universe, r, days[1..]);
          RunFromHistory(cfg, universe, r, days[1..]);
          HistoryStep(s.history, r.history, RunFrom(cfg, universe, r, days[1..]).history, dates);
        } else {
          assert RunFrom(cfg, universe, s, days) == r;
          assert r.history[|s.history|..] == [r.history[|s.history|]];
        }
      }
    }
  }

  /** Joining one date's snapshot to the snapshots of the rest of the run. */
  lemma HistoryStep(h0: seq<Snapshot>, h1: seq<Snapshot>, h2: seq<Snapshot>, dates: seq<int>)
    requires dates != [] && |h1| == |h0| + 1 && h1[..|h0|] == h0 && h1[|h0|].date == dates[0]
    requires |h1| <= |h2| && h2[..|h1|] == h1 && DatedBy(h2[|h1|..], dates[1..])
    ensures |h0| <= |h2| && h2[..|h0|] == h0 && DatedBy(h2[|h0|..], dates)
  {
  }
}
