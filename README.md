# RSI(2) mean-reversion backtests in Dafny

This project models the end-of-day portfolio simulation of two backtest
scripts, plus the ticker-file reader they share.

- **backtest-switching.py** is a leveraged RSI(2) simulator that switches between two regimes.
  - NORMAL goes long on oversold stocks in an uptrend.
  - INVERSE goes short on overbought stocks in a downtrend.
  - A hysteresis rule on the VIX and the S&P 500 moves it between the two.
  - Every day it runs eight steps on a book of at most MAX_CONCURRENT_POSITIONS positions:
    1. accrue financing (swap);
    2. value the book;
    3. liquidate everything and stop if the value is not positive (margin call);
    4. close positions on their own strategy's exit flag or on the time stop;
    5. apply the regime switch;
    6. gate entries, collect candidates and rank them;
    7. admit candidates one by one with leverage-aware sizing;
    8. record a snapshot.
- **backtest.py** is the long-only simulator.
  - It runs the same loop without financing and without regime switching.
  - It scans the whole ranked list.
  - It floors the quantity only when the leverage factor exceeds 1.
- **markets.py** `get_tickers_from_csv` splits a ticker file into a ticker list and a blacklist.

## Structure

| file | module | contents |
|---|---|---|
| market_data.dfy | `MarketData` | daily rows with missing values as `Option<real>`, candidates, trades, snapshots |
| calendar.dfy | `Calendar` | integer day numbers, weekdays, `numpy.busday_count` |
| ranking.dfy | `Ranking` | prioritization methods, sort keys, Python's stable `sorted` in both directions |
| markets.dfy | `Markets` | the ticker-file reader: a loop method, proved against a fold over lines |
| switching_rules.dfy | `SwitchingRules` | the eight steps of one day as pure functions; `StepSpec` composes them |
| switching_proofs.dfy | `SwitchingProofs` | what each step promises, and the state invariant |
| switching_run.dfy | `SwitchingRun` | the date loop as a function, and its properties over whole runs |
| switching_backtest.dfy | `SwitchingBacktest` | class `Simulator`: the state as fields, with one method per step, `Step` and `Run` |
| long_only_rules.dfy | `LongOnlyRules` | one day of backtest.py as pure functions |
| long_only_proofs.dfy | `LongOnlyProofs` | what each part promises, the state invariant, and a comparison of the two admission policies |
| long_only_run.dfy | `LongOnlyRun` | the date loop with START_DATE skipping, and its properties over whole runs |
| long_only_backtest.dfy | `LongOnlyBacktest` | class `LongOnlySimulator`, in place |

### Representation

- Money, prices and indicators are `real`.
  - A pandas NaN is `None`.
  - A comparison with a missing value is false.
- Quantities come from `Floor`, except in backtest.py without leverage, where the quantity stays fractional.
- Dates are day numbers, with day 0 = 1970-01-01.
  - START_DATE 2007-01-01 is day 13514.
  - START_DATE 2018-01-01 is day 17532.
- The `positions` dict is a `seq<Position>` in insertion order.
  - A deletion keeps the order of the rest.
  - An insertion appends.
  - The invariant `UniqueTickers` says the sequence is the dict.
- The universe (the keys of `all_historical_data`) is a sequence without repeats.

### Method and specification

Each simulator class has the loop's locals as fields. `State()` reads them as a value.

- Every state-changing method states its new state through a rules function, e.g. `ensures State() == StepSpec(cfg, universe, old(State()), day)`.
- `Run` is proved to leave `Simulate(...)`.
- The properties are lemmas about those functions:
  - value conservation;
  - the bounds on the book;
  - hysteresis;
  - exactness of the candidate list;
  - stability of the ranking;
  - the invariant kept from day to day.

## Model

| member | source | states |
|---|---|---|
| Calendar.Weekday | backtest-switching.py:249 | the weekday of a day number is one of seven values |
| Calendar.CountBusinessDays | backtest-switching.py:272 | the business days in [a, b) number between 0 and b - a |
| Calendar.BusDayCountStep | backtest-switching.py:272 | extending the range by one day adds one exactly when that day is Monday to Friday |
| Calendar.CountBusinessDaysSplit | backtest-switching.py:272 | counts over adjacent ranges add up |
| Calendar.BusDayCountMonotone | backtest-switching.py:272-273 | the days held never decrease as the date moves forward |
| Calendar.WeekHasFiveBusinessDays | backtest-switching.py:272 | any seven consecutive days hold exactly five business days (no holidays) |
| Calendar.WeekdayShift | backtest-switching.py:272 | the weekday k days later wraps around the week |
| Calendar.UnrollWeek | backtest-switching.py:272 | a seven-day count is the sum of seven one-day counts |
| Calendar.CountReachesExactly | backtest-switching.py:272-274 | the business-day count grows by at most one a day, so every value from 0 up to the count over [a, b) is the count over [a, d) for some d in [a, b] (a statement about the calendar only: the simulator visits only dates in the master index, which can skip weekday holidays, so the first date on which a time stop fires may have more than n business days behind it) |
| Ranking.ParseMethod | backtest-switching.py:386-411 | exactly the six method names are recognised; any other name is kept as an unknown method |
| Ranking.StrLessIrreflexive | backtest-switching.py:404-410 | ticker order is irreflexive |
| Ranking.StrLessTransitive | backtest-switching.py:404-410 | ticker order is transitive |
| Ranking.StrLessTotal | backtest-switching.py:404-410 | two different tickers are always ordered |
| Ranking.KeyLessIrreflexive | backtest-switching.py:381-413 | the key order is irreflexive |
| Ranking.KeyLessTransitive | backtest-switching.py:381-413 | the key order is transitive |
| Ranking.KeyLessTotal | backtest-switching.py:381-413 | the key order is total |
| Ranking.BeforeSameKey | backtest-switching.py:413 | equal keys are never reordered against each other |
| Ranking.BeforeAsymmetric | backtest-switching.py:413 | placement before is asymmetric in both directions of the sort |
| Ranking.BeforeThenNotBefore | backtest-switching.py:413 | placement before composes with not-before |
| Ranking.Insert | backtest-switching.py:413 | one insertion adds exactly that candidate |
| Ranking.Sort | backtest-switching.py:413 | the ranked list is a permutation of the candidates |
| Ranking.SortIsSorted | backtest-switching.py:413 | no later candidate should precede an earlier one under the key and direction |
| Ranking.SortIsStable | backtest-switching.py:413 | candidates with equal keys keep their input order, also with reverse=True |
| Ranking.SortSpecified | backtest-switching.py:413 | the ranked list is an ordered, stable permutation |
| Ranking.SortKeepsDistinct | backtest-switching.py:413 | sorting keeps the tickers distinct |
| Ranking.SortMembers | backtest-switching.py:413 | sorting neither adds nor drops a candidate |
| Ranking.InsertKeepsDistinct | backtest-switching.py:413 | inserting a new ticker keeps the tickers distinct |
| Ranking.InsertSorted | backtest-switching.py:413 | insertion keeps a ranked list ranked |
| Ranking.InsertMembers | backtest-switching.py:413 | insertion adds exactly the one candidate |
| Ranking.WithKeyAppend | backtest-switching.py:413 | the candidates of one key split over a concatenation |
| Ranking.InsertWithKey | backtest-switching.py:413 | insertion places the new candidate after all of its key class |
| Markets.TrimLeft | markets.py:34 | what is left starts with a non-space |
| Markets.TrimLeftSuffix | markets.py:34 | only leading whitespace is dropped |
| Markets.TrimRight | markets.py:34 | a prefix of the line is kept, ending with a non-space |
| Markets.StripEmpty | markets.py:34-36 | a stripped line is empty exactly when the raw line is all whitespace |
| Markets.LowerAll | markets.py:37 | lowercasing keeps the length |
| Markets.FirstField | markets.py:42-44 | the entry is the text before the first comma, or the whole line |
| Markets.GetTickersFromCsv | markets.py:9-48 | a missing or unreadable file gives two empty lists; otherwise the result is the fold of the lines |
| Markets.FirstMarker | markets.py:37-39 | the index of the first line whose lowercase form starts with "blacklist" |
| Markets.EntriesCount | markets.py:33-45 | each line that is neither blank nor a marker contributes exactly one entry |
| Markets.ScanSplitsAtFirstMarker | markets.py:37-44 | the tickers are the entries before the first marker and the blacklist is the entries after it; the section flag is set exactly when a marker was read |
| Markets.ScanKeepsEveryEntry | markets.py:33-45 | tickers then blacklist are all entries in file order; their lengths add up to the number of entry lines |
| Markets.EntriesSplit | markets.py:33-45 | the entries before and after an index make up all entries |
| Markets.EntriesAppend | markets.py:33-45 | the entries of two line blocks concatenate |
| Markets.BlankLineIgnored | markets.py:35-36 | a blank line anywhere changes nothing |
| Markets.MarkerIsPermanent | markets.py:37-41 | after a marker the reader stays in the blacklist section and the tickers never grow |
| SwitchingRules.Accrue | backtest-switching.py:210-212 | accrual keeps the book's length and tickers |
| SwitchingRules.AccruedBook | backtest-switching.py:199-212 | financing keeps the length and tickers of the book, whatever the leverage |
| SwitchingRules.Trades | backtest-switching.py:249-254 | one trade per closed position, in book order, each with its ticker, business days held, net P&L and cost |
| SwitchingRules.Kept | backtest-switching.py:261-301 | every kept position was in the book and fires neither its exit flag nor the time stop |
| SwitchingRules.Closed | backtest-switching.py:261-301 | every closed position was in the book and fires its own exit flag or the time stop |
| SwitchingProofs.AccrueKeepsEquity | backtest-switching.py:210-227 | accrual keeps the closes known and the book's equity, which does not deduct financing |
| SwitchingProofs.AccrueAt | backtest-switching.py:210-212 | accrual adds exactly one day's swap to each position and changes no other field |
| SwitchingProofs.AccrueAddsDailySwap | backtest-switching.py:210-212 | the total financing grows by the sum of the daily swaps |
| SwitchingProofs.UnleveragedNoFinancing | backtest-switching.py:199 | with leverage 1 or less no financing is charged |
| SwitchingProofs.DailySwapRate | backtest-switching.py:201-211 | the daily swap is notional × (Fed rate/100 + 0.025)/360, with 4.0 for a missing Fed rate |
| SwitchingProofs.ProceedsAreEquityLessSwap | backtest-switching.py:241-247 | closing a set of positions credits their equity less their financing |
| SwitchingProofs.MarginCallLiquidates | backtest-switching.py:232-258 | on a non-positive value: one MARGIN_CALL trade per position in order, empty book, halted, last snapshot = cash = value less all financing |
| SwitchingProofs.ExitPartition | backtest-switching.py:261-301 | a position stays exactly when neither its own exit flag nor the time stop fires; nothing is lost or duplicated |
| SwitchingProofs.ExitSplitsEquity | backtest-switching.py:277-287 | the book's equity splits between the kept and the closed positions |
| SwitchingProofs.ExitConservesValue | backtest-switching.py:277-287 | after the closes, cash plus the kept book is the day's value less the closed positions' swap |
| SwitchingProofs.ReasonOfAClose | backtest-switching.py:295 | the reported reason is TIME_STOP exactly when the time stop fired; otherwise the position's own exit flag is set |
| SwitchingProofs.KeptWithinTimeStop | backtest-switching.py:270-277 | a kept position has been held fewer than TIME_STOP business days and its own exit flag is off |
| SwitchingProofs.NormalToInverse | backtest-switching.py:329-336 | NORMAL turns INVERSE exactly on a VIX above the ceiling with protection on, or an S&P close below SMA 200 |
| SwitchingProofs.InverseToNormal | backtest-switching.py:337-342 | INVERSE turns NORMAL exactly when VIX protection is off or VIX is below 80% of the ceiling, and the S&P is strong |
| SwitchingProofs.MissingSp500 | backtest-switching.py:323-342 | missing S&P data: only a VIX spike moves NORMAL, and INVERSE never leaves |
| SwitchingProofs.MissingVixBlocksReturn | backtest-switching.py:339 | a missing VIX with protection on keeps INVERSE |
| SwitchingProofs.VixBandKeepsRegime | backtest-switching.py:331-340 | between 80% of the ceiling and the ceiling, VIX alone moves neither regime |
| SwitchingProofs.Sp500BandKeepsRegime | backtest-switching.py:323-340 | an S&P between SMA 200 and SMA 200 × threshold moves neither regime unless VIX spikes |
| SwitchingProofs.HysteresisExample | backtest-switching.py:42-45 | with the script's settings a VIX of 40 leaves either regime where it is |
| SwitchingProofs.RecordChangeExact | backtest-switching.py:344-345 | a history entry is appended exactly when the regime changed, and records from and to |
| SwitchingProofs.CandidatesExact | backtest-switching.py:367-379 | each candidate is an unheld universe ticker with the regime's buy flag and a known close, priced at that close; every such ticker appears |
| SwitchingProofs.CandidatesDistinct | backtest-switching.py:367-379 | a universe without repeats gives candidates with distinct tickers |
| SwitchingProofs.RankedAdmissible | backtest-switching.py:413-417 | every prefix of the ranked list has distinct, unheld tickers priced at the day's close |
| SwitchingProofs.SizingBound | backtest-switching.py:422-432 | a floored quantity costs at most the cash per slot |
| SwitchingProofs.PerSlotAtMostCash | backtest-switching.py:422 | the cash per slot is between 0 and the cash |
| SwitchingProofs.NoCashNoQuantity | backtest-switching.py:428-429 | without positive cash no whole unit is bought |
| SwitchingProofs.TryAdmitSound | backtest-switching.py:417-447 | a filled candidate is opened at its price under the regime with zero swap, the matching type, and a cost of at least 5.0 and at most the cash per slot |
| SwitchingProofs.NoCashNoEntry | backtest-switching.py:422-429 | without positive cash nothing is opened |
| SwitchingProofs.CashGuardNeverBinds | backtest-switching.py:435 | with non-negative cash, a sized quantity with at least 5.0 of margin always passes `cash >= cost` |
| SwitchingProofs.FillAffordable | backtest-switching.py:433-436 | a quantity whose margin is between 5.0 and the cash is filled |
| SwitchingProofs.OpenedAtZeroPnl | backtest-switching.py:439-447 | a new position is worth its margin at its entry price, long or short |
| SwitchingProofs.SizingExample | backtest-switching.py:422-432 | 1000 of cash, one slot, price 10, leverage 5: 500 units, 5000 notional, 1000 margin |
| SwitchingProofs.DepletionExample | backtest-switching.py:417-436 | 900 of cash, two slots, leverage 1, two candidates at 10: 45 units each, the second sized on the cash left |
| SwitchingProofs.AdmitAllBounds | backtest-switching.py:417-447 | admission only appends, never past MAX_CONCURRENT_POSITIONS, at most one per candidate, keeps cash non-negative, opens nothing without cash |
| SwitchingProofs.AdmitAllOpens | backtest-switching.py:435-447 | every added position was opened from one of the candidates tried |
| SwitchingProofs.AdmitAllKeepsUnique | backtest-switching.py:439 | admitting distinct unheld tickers keeps one position per ticker |
| SwitchingProofs.AdmitAllConservesValue | backtest-switching.py:431-447 | admission leaves cash plus equity at the day's closes unchanged |
| SwitchingProofs.EntryPhaseBounds | backtest-switching.py:348-362 | with no open slot or a closed gate nothing changes; otherwise only appends, within the bound, cash non-negative |
| SwitchingProofs.EntryPhaseKeepsUnique | backtest-switching.py:362-447 | the entry step keeps one position per ticker |
| SwitchingProofs.EntryPhaseConservesValue | backtest-switching.py:362-447 | the entry step does not change the day's value |
| SwitchingProofs.EntryPhaseOpensCandidates | backtest-switching.py:362-447 | every new position is a candidate of the day, opened at its close, on the day, under the regime |
| SwitchingProofs.InitialStateValid | backtest-switching.py:187-191 | the initial state holds INITIAL_CAPITAL and an empty book |
| SwitchingProofs.AccruedBookKeepsValue | backtest-switching.py:199-229 | valuation after accrual equals valuation before it |
| SwitchingProofs.AccruedBookKeepsShape | backtest-switching.py:210-212 | accrual keeps the tickers unique and the positions well formed |
| SwitchingProofs.KeptKeepsShape | backtest-switching.py:301 | the kept positions keep unique tickers and well-formedness |
| SwitchingProofs.KeptUniqueTickers | backtest-switching.py:301 | deleting positions keeps the tickers unique |
| SwitchingProofs.EntryPhaseKeepsWellFormed | backtest-switching.py:428-447 | the entry phase keeps every position of the book well formed: quantity a whole number ≥ 1, margin ≥ 5.0, notional = margin × leverage, and position type LONG for NORMAL and SHORT for INVERSE (zero P&L at entry is a separate statement, SwitchingProofs.OpenedAtZeroPnl, applied through SwitchingProofs.EntryPhaseOpensCandidates) |
| SwitchingProofs.ExitPhaseKeepsShape | backtest-switching.py:261-301 | the closes never grow the book and keep its shape |
| SwitchingProofs.ExitPhaseValue | backtest-switching.py:277-301 | after the closes, cash plus the kept book is the day's value less the closed swap |
| SwitchingProofs.TradingDayValid | backtest-switching.py:260-456 | a trading day keeps the book bounded, keyed by ticker and well formed |
| SwitchingProofs.StepPreservesValid | backtest-switching.py:196-456 | every day keeps the state invariant |
| SwitchingProofs.TradingDayRecords | backtest-switching.py:290-293 | a trading day goes on, records the day's value, and appends one trade per close |
| SwitchingProofs.TradingDayConservesValue | backtest-switching.py:277-447 | after a trading day cash plus book is the snapshot less the closed swap |
| SwitchingProofs.TradingDayBook | backtest-switching.py:301-447 | the new book is the kept positions in order followed by today's fills under the post-switch regime |
| SwitchingProofs.StepHaltsExactly | backtest-switching.py:229-232 | a day halts exactly when its value is not positive, the same before and after accrual |
| SwitchingProofs.StepSnapshot | backtest-switching.py:257 | every day appends one snapshot: the value on a trading day, the cash after a margin call |
| SwitchingProofs.StepHistory | backtest-switching.py:456 | every day appends exactly one snapshot, dated with the day |
| SwitchingProofs.StepConservesValue | backtest-switching.py:214-447 | the value is only ever reduced by financing of the closed positions |
| SwitchingProofs.StepTrades | backtest-switching.py:250-293 | trades are only appended: one per position on a margin call, one per close otherwise |
| SwitchingProofs.StepKeepsChain | backtest-switching.py:327-345 | every day keeps the regime history a chain of real changes ending in the current regime, at most one per day |
| SwitchingProofs.TradingDayRegime | backtest-switching.py:303-345 | a trading day's regime is the result of the switch rule |
| SwitchingRun.OnOrAfter | backtest-switching.py:194 | `dates_list` holds only days of the index from START_DATE on |
| SwitchingRun.OnOrAfterForwardFilled | backtest-switching.py:194 | filtering keeps the index order, so the closes stay forward-filled |
| SwitchingRun.OnOrAfterExact | backtest-switching.py:194 | `dates_list` holds exactly the days from START_DATE on |
| SwitchingRun.RunFromValid | backtest-switching.py:196-258 | a run keeps the invariant; a halted run has an empty book and ends with a snapshot of the cash |
| SwitchingRun.RunFromTrades | backtest-switching.py:250-293 | a run only appends trades |
| SwitchingRun.DatedByIndex | backtest-switching.py:456 | the snapshot dating reads index by index |
| SwitchingRun.RunFromHistory | backtest-switching.py:196-456 | one snapshot per processed day, in date order; without a margin call every day is processed |
| SwitchingRun.RunFromChain | backtest-switching.py:327-345 | over a run the regime history is a chain from the initial regime, at most one change per day |
| SwitchingBacktest.AccrueScan | backtest-switching.py:210-212 | the accrual loop computes `Accrue` |
| SwitchingBacktest.CloseAt | backtest-switching.py:241-254 | closing credits cost plus P&L less swap and records the trade |
| SwitchingBacktest.LiquidateScan | backtest-switching.py:234-255 | the liquidation loop credits all proceeds and records one MARGIN_CALL trade per position |
| SwitchingBacktest.ExitScan | backtest-switching.py:261-301 | the close loop computes the exit step's cash, kept book and trades |
| SwitchingBacktest.AdmitScan | backtest-switching.py:417-447 | the admission loop computes `AdmitAll` over the first `open_slots` ranked candidates |
| SwitchingBacktest.Simulator.constructor | backtest-switching.py:187-191 | the fields start as the initial state |
| SwitchingBacktest.Simulator.AccrueSwap | backtest-switching.py:199-212 | step 1 updates only the book's financing |
| SwitchingBacktest.Simulator.Valuation | backtest-switching.py:214-229 | step 2 returns the day's value and changes nothing |
| SwitchingBacktest.Simulator.Liquidate | backtest-switching.py:231-258 | step 3 leaves the margin-call state |
| SwitchingBacktest.Simulator.ClosePositions | backtest-switching.py:260-301 | step 4 leaves the exit step's cash, book and trades, nothing else |
| SwitchingBacktest.Simulator.SwitchRegime | backtest-switching.py:303-345 | step 5 leaves the next regime and its history entry, nothing else |
| SwitchingBacktest.Simulator.CollectCandidates | backtest-switching.py:362-379 | the collection loop returns exactly the day's candidates |
| SwitchingBacktest.Simulator.OpenPositions | backtest-switching.py:347-453 | steps 6 and 7 leave the entry step's cash and book, nothing else |
| SwitchingBacktest.Simulator.Step | backtest-switching.py:196-456 | one date in place leaves `StepSpec` of the old state |
| SwitchingBacktest.Simulator.DatesFrom | backtest-switching.py:194 | the filtering loop returns `dates_list` |
| SwitchingBacktest.Simulator.Run | backtest-switching.py:186-463 | the whole loop leaves `Simulate` of the initial state |
| LongOnlyRules.Trades | backtest.py:108-116 | one trade per closed position, in book order, with ticker, business days held, P&L and cost |
| LongOnlyRules.Kept | backtest.py:122-131 | every kept position was in the book and its exit flag is off |
| LongOnlyRules.Closed | backtest.py:122-131 | every closed position was in the book and its exit flag is on |
| LongOnlyRules.Candidates | backtest.py:135-146 | each candidate is an unheld ticker with the buy flag and a known close, recorded from its row |
| LongOnlyRules.RankedNonZero | backtest.py:170-176 | with no zero close on a buy row, no ranked candidate has price 0 |
| LongOnlyProofs.SignalsExclusive | backtest.py:80-81 | the buy flag and the exit flag are never both set on one row |
| LongOnlyProofs.SortSpecIsNormalTable | backtest.py:149-162 | the long-only ranking table is the switching table in the NORMAL regime, unknown methods to RSI ascending |
| LongOnlyProofs.ExitPartition | backtest.py:122-131 | a position stays exactly when its exit flag is off; nothing is lost or duplicated |
| LongOnlyProofs.ExitSplitsEquity | backtest.py:122-131 | the book's value splits between kept and closed |
| LongOnlyProofs.ExitPhaseValue | backtest.py:122-131 | after the closes, cash plus the kept book is the day's value |
| LongOnlyProofs.CandidatesComplete | backtest.py:136-146 | every unheld universe ticker with the buy flag and a known close is a candidate |
| LongOnlyProofs.CandidatesDistinct | backtest.py:136-146 | a universe without repeats gives distinct candidate tickers |
| LongOnlyProofs.UnleveragedSpendsShare | backtest.py:170-180 | without leverage the quantity is not floored and the margin is exactly the slot's share of the cash |
| LongOnlyProofs.LeveragedWithinShare | backtest.py:170-180 | with leverage the quantity is whole and the margin is at most the slot's share of the cash |
| LongOnlyProofs.TryBuySound | backtest.py:164-185 | a bought candidate is opened at its price on the day, with a cost from 5.0 up to the cash |
| LongOnlyProofs.CashGuardNeverBinds | backtest.py:176-183 | with a positive price and non-negative cash, a candidate is bought exactly when its quantity is non-zero and its margin is at least 5.0 |
| LongOnlyProofs.OpenedAtZeroPnl | backtest.py:179-185 | a new position is worth its margin at its entry price |
| LongOnlyProofs.AdmitAllBounds | backtest.py:164-185 | admission only appends, never past MAX_CONCURRENT_POSITIONS, only spends cash, keeps it non-negative, opens nothing below 5.0 of cash |
| LongOnlyProofs.AdmitAllOpens | backtest.py:164-185 | every added position was opened from one of the candidates |
| LongOnlyProofs.AdmitAllKeepsUnique | backtest.py:137-185 | admitting distinct unheld tickers keeps one position per ticker |
| LongOnlyProofs.AdmitAllConservesValue | backtest.py:179-185 | admission leaves cash plus the book at the day's closes unchanged |
| LongOnlyProofs.WholeListScanExample | backtest.py:164-177 | a first candidate that buys nothing does not use up the slot: the second is bought, while the switching policy opens nothing |
| LongOnlyProofs.RankedAdmissible | backtest.py:135-162 | the ranked list has distinct, unheld tickers with non-zero prices at the day's close |
| LongOnlyProofs.EntryPhaseBounds | backtest.py:133-185 | with a full book nothing changes; otherwise only appends, within the bound, cash non-negative |
| LongOnlyProofs.EntryPhaseKeepsUnique | backtest.py:133-185 | the entry step keeps one position per ticker |
| LongOnlyProofs.EntryPhaseConservesValue | backtest.py:133-185 | the entry step does not change the day's value |
| LongOnlyProofs.EntryPhaseOpensCandidates | backtest.py:133-185 | every new position is a candidate of the day opened at its close |
| LongOnlyProofs.InitialStateValid | backtest.py:91-92 | the initial state holds INITIAL_CAPITAL and an empty book |
| LongOnlyProofs.KeptUniqueTickers | backtest.py:131 | deleting positions keeps the tickers unique |
| LongOnlyProofs.ExitPhaseKeepsShape | backtest.py:122-131 | the closes never grow the book and keep its shape |
| LongOnlyProofs.EntryPhaseKeepsWellFormed | backtest.py:176-185 | every opened position has a non-zero quantity, whole under leverage, margin ≥ 5.0, notional = margin × leverage |
| LongOnlyProofs.TradingDayValid | backtest.py:122-189 | a trading day keeps the book bounded, keyed by ticker and well formed |
| LongOnlyProofs.StepPreservesValid | backtest.py:94-189 | every day keeps the state invariant |
| LongOnlyProofs.MarginCallLiquidates | backtest.py:106-120 | on a non-positive value: one trade per position in order, empty book, halted, last snapshot = cash = the day's value |
| LongOnlyProofs.StepSnapshot | backtest.py:103-189 | a day halts exactly when its value is not positive and appends the value computed before any close or open |
| LongOnlyProofs.StepConservesValue | backtest.py:97-189 | closes and opens never change the value |
| LongOnlyProofs.StepTrades | backtest.py:108-131 | trades are only appended: one per position on a margin call, one per close otherwise |
| LongOnlyRun.RunFromValid | backtest.py:94-120 | a run keeps the invariant; a halted run has an empty book and ends with a snapshot of the cash |
| LongOnlyRun.MarginCallSnapshot | backtest.py:119 | a halting day's last snapshot is the cash left |
| LongOnlyRun.RunFromTrades | backtest.py:94-131 | a run only appends trades |
| LongOnlyRun.DatedByIndex | backtest.py:189 | the snapshot dating reads index by index |
| LongOnlyRun.RunFromHistory | backtest.py:94-95 | dates before START_DATE are skipped and the rest get one snapshot each in index order; without a margin call every one is recorded |
| LongOnlyBacktest.CloseAt | backtest.py:126-129 | closing credits cost plus P&L and records the trade |
| LongOnlyBacktest.LiquidateScan | backtest.py:108-116 | the liquidation loop credits the book's value and records one trade per position |
| LongOnlyBacktest.ExitScan | backtest.py:122-131 | the close loop computes the exit step's cash, kept book and trades |
| LongOnlyBacktest.AdmitScan | backtest.py:164-185 | the admission loop over the whole ranked list computes `AdmitAll` |
| LongOnlyBacktest.LongOnlySimulator.constructor | backtest.py:91-92 | the fields start as the initial state |
| LongOnlyBacktest.LongOnlySimulator.Valuation | backtest.py:98-103 | returns the day's value and changes nothing |
| LongOnlyBacktest.LongOnlySimulator.Liquidate | backtest.py:106-120 | leaves the margin-call state |
| LongOnlyBacktest.LongOnlySimulator.ClosePositions | backtest.py:122-131 | leaves the exit step's cash, book and trades, nothing else |
| LongOnlyBacktest.LongOnlySimulator.CollectCandidates | backtest.py:135-146 | the collection loop returns exactly the day's candidates |
| LongOnlyBacktest.LongOnlySimulator.OpenPositions | backtest.py:133-185 | leaves the entry step's cash and book, nothing else |
| LongOnlyBacktest.LongOnlySimulator.Step | backtest.py:97-189 | one date in place leaves `StepSpec` of the old state |
| LongOnlyBacktest.LongOnlySimulator.Run | backtest.py:90-194 | the whole loop, skipping early dates, leaves `Simulate` of the initial state |

The model follows the code; where a comment in the scripts (for instance backtest-switching.py:171 and 359) reads otherwise, or a behaviour is easy to misread, the code decides:

- **Exit reasons.**
  - In backtest-switching.py the trade record stores an exit reason only on a margin call (`"MARGIN_CALL"`, line 253). The TIME_STOP or signal reason of a normal close is only printed (line 295), and the model has it as `ReportedReason`.
  - backtest.py stores no reason at all.
- **The INVERSE entry gate.** It reads the precomputed `is_bearish` column, which is close < SMA 200 × threshold (line 64), not close < SMA 200. So under INVERSE the band with no entries is only the point close = SMA 200 × threshold.
- **Long-only sizing.**
  - backtest.py floors the quantity only when the leverage factor exceeds 1.
  - It skips only a quantity of exactly 0, not one ≤ 0.
  - It has no guard against a zero price (line 176 divides by it).

## Left out

- Data preparation (`prepare_data` in both scripts): downloads, Fed-rate scraping, indicator computation, reindexing and forward fill.
  - The indicator columns and signal flags are inputs.
  - The forward fill appears only as a precondition: `ForwardFilled` in the switching model, `Prepared` in the long-only one.
- Reporting and the final calendar reindex of the value history (backtest-switching.py:459-461, backtest.py:191-193).
  - `portfolio_value_history` is modelled as is.
  - Also left out: the summary statistics, the report writers and the drivers.
- `PANIC_BUTTON`: declared, but never read by `run_simulation`.
- Verbose printing.
- Floating-point rounding and NaN arithmetic.
  - Money is `real`.
  - NaN is `None`, and a comparison with it is false.
  - A NaN close of a held position would turn the day's value into NaN. The model does not carry that: it requires the closes of held tickers to be known (`PricesKnown`).
- Markets.Lower, Markets.LowerAll, Markets.IsMarker: strings are sequences of characters and lowercasing is ASCII only, while Python's `str.lower()` is Unicode-aware. A cell such as `BLAC\u212ALIST` (with the Kelvin sign) lowercases to `blacklist` in Python and is a marker there, but in the model it is an ordinary entry.
- markets.py: the file system is a parameter (`FileContents`), so a missing file and a read error are inputs.
- The universe order is given as a sequence of distinct tickers. The model does not derive it from the ticker lists.
- SwitchingBacktest.Simulator.Step: requires every held ticker to have a known close on the day. The source would compute with NaN there.
- SwitchingBacktest.Simulator.Run: requires the day rows to be forward-filled (`ForwardFilled`), which the data preparation ensures.
- LongOnlyBacktest.LongOnlySimulator.Step: requires no zero close on a row with the buy flag (`EntryPricesNonZero`). backtest.py would raise ZeroDivisionError at line 176 there, and the model has no crash outcome. With non-negative closes the requirement holds anyway: the buy flag needs close > sma_200 (backtest.py:80), and sma_200, a mean of non-negative closes, is itself ≥ 0, so the close on such a row is positive.
- LongOnlyBacktest.LongOnlySimulator.Run: requires `Prepared`, which is forward fill plus the same zero-price exclusion on every day.
- LongOnlyBacktest.AdmitScan: leaves out the `open_slots <= 0: continue` test (backtest.py:168-169). It cannot fire after the `len(positions) >= MAX` break on line 165.
- The per-position loops (`LiquidateScan`, `ExitScan`, `AccrueScan`) work on a copy of the book, and the class methods then assign the fields. For liquidation and exits this matches the source, which iterates over a copy of the keys (`list(positions.keys())`, backtest-switching.py:234 and 261, backtest.py:108 and 122). Accrual does not match: backtest-switching.py:210-212 updates each position's dictionary in place while iterating `positions.items()`, and `AccrueScan` builds the new book as a new sequence instead. No position record is shared with anything outside the book, so no other state can observe the difference. Only that aliasing is left out; the resulting values are the same.
- SwitchingRules.CanEnter: the entry gate under INVERSE reads the `is_bearish` flag. backtest-switching.py:64 computes that flag before the S&P series is reindexed to the master index (lines 136-137), so on a processed date before the first S&P row the flag is NaN. `if sp500_is_bearish_num:` (lines 353-360) treats NaN as true and lets INVERSE entries through there. The model reads such a date as a missing S&P close and keeps the gate shut. The difference needs an S&P series that starts after the first processed date, and floating-point NaN is not modelled.
- SwitchingRules.ValidConfig, LongOnlyRules.ValidLongConfig: both require leverage > 0, which the code does not check. Both scripts fix `LEVERAGE_FACTOR = 5` (backtest-switching.py:31, backtest.py:19).
