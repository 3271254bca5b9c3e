/**
 * The date loop of the regime-switching simulator as a function: the dates
 * from START_DATE on, processed in order, stopping after a margin call.
 */
module SwitchingRun {
  import opened MarketData
  import opened Ranking
  import opened SwitchingRules
  import opened SwitchingProofs

  /**
   * Every close known on one day is known on every later day: the price
   * frames are forward-filled over the master index.
   */
  ghost predicate ForwardFilled(days: seq<Day>) {
    forall i, j, t :: 0 <= i <= j < |days| && KnownClose(days[i].bars, t) ==> KnownClose(days[j].bars, t)
  }

  /** `dates_list`: the days dated on or after `start`, in order. */
  function OnOrAfter(days: seq<Day>, start: int): (r: seq<Day>)
    ensures |r| <= |days|
    ensures forall k :: 0 <= k < |r| ==> r[k] in days && r[k].date >= start
  {
    if days == [] then []
    else OnOrAfter(days[..|days| - 1], start) + (if days[|days| - 1].date >= start then [days[|days| - 1]] else [])
  }

  /** A book whose closes are known on one day has them on every later day. */
  lemma ForwardFilledLater(days: seq<Day>, book: seq<Position>)
    requires ForwardFilled(days) && |days| >= 2 && PricesKnown(book, days[0].bars)
    ensures ForwardFilled(days[1..]) && PricesKnown(book, days[1].bars)
  {
    var rest := days[1..];
    forall i, j, t | 0 <= i <= j < |rest| && KnownClose(rest[i].bars, t) ensures KnownClose(rest[j].bars, t) {
      assert rest[i] == days[i + 1] && rest[j] == days[j + 1];
    }
    forall k | 0 <= k < |book| ensures KnownClose(days[1].bars, book[k].ticker) {
      assert KnownClose(days[0].bars, book[k].ticker);
    }
  }

  /** The days from `start` on keep the order of the index, so they stay forward-filled. */
  lemma {:induction false} OnOrAfterForwardFilled(days: seq<Day>, start: int)
    requires ForwardFilled(days)
    ensures ForwardFilled(OnOrAfter(days, start))
  {
    if days != [] {
      var pre, last := days[..|days| - 1], days[|days| - 1];
      assert ForwardFilled(pre) by {
        forall i, j, t | 0 <= i <= j < |pre| && KnownClose(pre[i].bars, t) ensures KnownClose(pre[j].bars, t) {
          assert pre[i] == days[i] && pre[j] == days[j];
        }
      }
      OnOrAfterForwardFilled(pre, start);
      var head := OnOrAfter(pre, start);
      if last.date >= start {
        var r := head + [last];
        forall i, j, t | 0 <= i <= j < |r| && KnownClose(r[i].bars, t) ensures KnownClose(r[j].bars, t) {
          if j == |head| {
            if i < |head| {
              assert r[i] == head[i] && head[i] in pre;
              var k :| 0 <= k < |pre| && pre[k] == head[i];
              assert days[k] == head[i] && days[|days| - 1] == r[j];
            }
          } else {
            assert r[i] == head[i] && r[j] == head[j];
          }
        }
      }
    }
  }

  /** The days from `start` on are exactly the days of the index dated on or after `start`. */
  lemma {:induction false} OnOrAfterExact(days: seq<Day>, start: int)
    ensures forall d :: d in OnOrAfter(days, start) <==> d in days && d.date >= start
  {
    if days != [] {
      var pre := days[..|days| - 1];
      OnOrAfterExact(pre, start);
      assert days == pre + [days[|days| - 1]];
    }
  }

  /**
   * The loop from state `s` over `days`: one step per day, stopping after
   * the day that triggers a margin call.
   */
  function RunFrom(cfg: Config, universe: seq<Ticker>, s: SimState, days: seq<Day>): SimState
    requires ValidConfig(cfg) && Distinct(universe) && ValidState(cfg, s) && ForwardFilled(days)
    requires days != [] ==> PricesKnown(s.book, days[0].bars)
    decreases |days|
  {
    if days == [] then s
    else
      var r := StepSpec(cfg, universe, s, days[0]);
      StepPreservesValid(cfg, universe, s, days[0]);
      StepConservesValue(cfg, universe, s, days[0]);
      if r.halted || |days| == 1 then r
      else
        ForwardFilledLater(days, r.book);
        RunFrom(cfg, universe, r, days[1..])
  }

  /** `run_simulation`: the loop over the dates from START_DATE on, from the initial state. */
  function Simulate(cfg: Config, universe: seq<Ticker>, initial: Regime, days: seq<Day>): SimState
    requires ValidConfig(cfg) && Distinct(universe) && ForwardFilled(days)
  {
    InitialStateValid(cfg, initial);
    OnOrAfterForwardFilled(days, cfg.startDate);
    RunFrom(cfg, universe, InitialState(cfg, initial), OnOrAfter(days, cfg.startDate))
  }

  /**
   * A run keeps the state invariant; when it stops on a margin call the
   * book is empty and the last snapshot is the cash left.
   */
  lemma {:induction false} RunFromValid(cfg: Config, universe: seq<Ticker>, s: SimState, days: seq<Day>)
    requires ValidConfig(cfg) && Distinct(universe) && ValidState(cfg, s) && ForwardFilled(days)
    requires days != [] ==> PricesKnown(s.book, days[0].bars)
    requires !s.halted
    ensures
      var r := RunFrom(cfg, universe, s, days);
      && ValidState(cfg, r)
      && (r.halted ==> r.book == [] && r.history != [] && r.history[|r.history| - 1].value == r.cash)
    decreases |days|
  {
    if days != [] {
      var r := StepSpec(cfg, universe, s, days[0]);
      StepPreservesValid(cfg, universe, s, days[0]);
      StepConservesValue(cfg, universe, s, days[0]);
      StepSnapshot(cfg, universe, s, days[0]);
      if !r.halted && |days| > 1 {
        ForwardFilledLater(days, r.book);
        RunFromValid(cfg, universe, r, days[1..]);
      }
    }
  }

  /** A run only appends trades. */
  lemma {:induction false} RunFromTrades(cfg: Config, universe: seq<Ticker>, s: SimState, days: seq<Day>)
    requires ValidConfig(cfg) && Distinct(universe) && ValidState(cfg, s) && ForwardFilled(days)
    requires days != [] ==> PricesKnown(s.book, days[0].bars)
    ensures
      var r := RunFrom(cfg, universe, s, days);
      |s.trades| <= |r.trades| && r.trades[..|s.trades|] == s.trades
    decreases |days|
  {
    if days != [] {
      var r := StepSpec(cfg, universe, s, days[0]);
      StepPreservesValid(cfg, universe, s, days[0]);
      StepConservesValue(cfg, universe, s, days[0]);
      StepTrades(cfg, universe, s, days[0]);
      if !r.halted && |days| > 1 {
        ForwardFilledLater(days, r.book);
        RunFromTrades(cfg, universe, r, days[1..]);
        var f := RunFrom(cfg, universe, r, days[1..]);
        assert f.trades[..|s.trades|] == f.trades[..|r.trades|][..|s.trades|];
      }
    }
  }

  /** The snapshots `h` are dated with the first `|h|` days, in order. */
  predicate DatedBy(h: seq<Snapshot>, days: seq<Day>)
    decreases |h|
  {
    |h| <= |days| && (h == [] || (h[0].date == days[0].date && DatedBy(h[1..], days[1..])))
  }

  /** Read index by index, `DatedBy` says that snapshot `k` carries the date of day `k`. */
  lemma {:induction false} DatedByIndex(h: seq<Snapshot>, days: seq<Day>)
    ensures DatedBy(h, days) <==> |h| <= |days| && forall k :: 0 <= k < |h| ==> h[k].date == days[k].date
    decreases |h|
  {
    if h != [] && |h| <= |days| {
      DatedByIndex(h[1..], days[1..]);
      if forall k :: 0 <= k < |h| ==> h[k].date == days[k].date {
        forall k | 0 <= k < |h| - 1 ensures h[1..][k].date == days[1..][k].date {
          assert h[1..][k] == h[k + 1] && days[1..][k] == days[k + 1];
        }
      }
      if DatedBy(h, days) {
        forall k | 0 <= k < |h| ensures h[k].date == days[k].date {
          if k > 0 {
            assert h[1..][k - 1] == h[k] && days[1..][k - 1] == days[k];
          }
        }
      }
    }
  }

  /**
   * A run records one snapshot per processed day, dated with that day, in
   * order; without a margin call every day is processed.
   */
  lemma {:induction false} RunFromHistory(cfg: Config, universe: seq<Ticker>, s: SimState, days: seq<Day>)
    requires ValidConfig(cfg) && Distinct(universe) && ValidState(cfg, s) && ForwardFilled(days)
    requires days != [] ==> PricesKnown(s.book, days[0].bars)
    ensures
      var r := RunFrom(cfg, universe, s, days);
      && |s.history| <= |r.history|
      && r.history[..|s.history|] == s.history
      && DatedBy(r.history[|s.history|..], days)
      && (!r.halted ==> |r.history| == |s.history| + |days|)
    decreases |days|
  {
    if days != [] {
      var r := StepSpec(cfg, universe, s, days[0]);
      StepPreservesValid(cfg, universe, s, days[0]);
      StepConservesValue(cfg, universe, s, days[0]);
      StepHistory(cfg, universe, s, days[0]);
      if !r.halted && |days| > 1 {
        ForwardFilledLater(days, r.book);
        assert RunFrom(cfg, universe, s, days) == RunFrom(cfg, universe, r, days[1..]);
        RunFromHistory(cfg, universe, r, days[1..]);
        HistoryStep(s.history, r.history, RunFrom(cfg, universe, r, days[1..]).history, days);
      } else {
        assert RunFrom(cfg, universe, s, days) == r;
        assert r.history[|s.history|..] == [r.history[|s.history|]];
      }
    }
  }

  /** Joining one day's snapshot to the snapshots of the rest of the run. */
  lemma HistoryStep(h0: seq<Snapshot>, h1: seq<Snapshot>, h2: seq<Snapshot>, days: seq<Day>)
    requires days != [] && |h1| == |h0| + 1 && h1[..|h0|] == h0 && h1[|h0|].date == days[0].date
    requires |h1| <= |h2| && h2[..|h1|] == h1 && DatedBy(h2[|h1|..], days[1..])
    ensures |h0| <= |h2| && h2[..|h0|] == h0 && DatedBy(h2[|h0|..], days)
  {
  }

  /**
   * A run keeps the regime history a chain from the initial regime to the
   * current one, with at most one change per processed day.
   */
  lemma {:induction false} RunFromChain(cfg: Config, universe: seq<Ticker>, s: SimState, days: seq<Day>, start: Regime)
    requires ValidConfig(cfg) && Distinct(universe) && ValidState(cfg, s) && ForwardFilled(days)
    requires days != [] ==> PricesKnown(s.book, days[0].bars)
    requires Chained(start, s.regimeHistory, s.regime)
    ensures
      var r := RunFrom(cfg, universe, s, days);
      Chained(start, r.regimeHistory, r.regime) && |r.regimeHistory| <= |s.regimeHistory| + |days|
    decreases |days|
  {
    if days != [] {
      var r := StepSpec(cfg, universe, s, days[0]);
      StepPreservesValid(cfg, universe, s, days[0]);
      StepConservesValue(cfg, universe, s, days[0]);
      StepKeepsChain(cfg, universe, s, days[0], start);
      if !r.halted && |days| > 1 {
        ForwardFilledLater(days, r.book);
        RunFromChain(cfg, universe, r, days[1..], start);
      }
    }
  }
}
