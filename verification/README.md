# Verified models of the research scripts

This project models the stateful algorithms behind the trading research scripts and proves what they promise: the
multi-file publisher and its rollback, the rolling windows, indexes and caches that must agree with the plain
computation, the two trade simulators, the resumable rows ledger with its lock, and the barriers that keep Test data out
of selection. Each module covers one component. Code that updates state in place is a class or a method with loops,
proved against a function or a predicate; the theorems are lemmas about those. SimulatorTrades, ExitTrades, FoldReport, EvidenceRules,
RouterRules and ExperimentRecord say what whole runs do in prices, rows and artifacts, without the functions that compute
them.

| module | component |
|---|---|
| AtomicPublish | `write_bytes_atomic`: temporaries, backups, publication, rollback, under any placement of failures |
| CandleWindows, PrecomputedMarket, RegimeRouter, RouterRules, RouterDifference | candle views, precomputed columns, the two routers, their rules in prices, and when they differ |
| RollingWindows | monotonic deques and running sums |
| FeatureShard, FeatureProvider | the newline index, the shard merge and its least-recently-used cache |
| ScalpingSimulator, SimulatorTrades, RouterSimulation, ExitModels, ExitTrades, ExitLosses, Drawdown | the fast simulator and its router, the exit models, what both trade and can lose, one-pass drawdown |
| RowsLock, ResumeLedger, ResumeRun, FoldBoundaries, CodecExample | the lock protocol, torn tails, resume, fold numbering |
| Experiment, ExperimentRecord, FrozenPayload | the staged experiment, its record, its freeze and the search for Test material |
| TrainSelection, FoldReport, Months | walk-forward selection, what it reports and its month lists |
| TradeEvidence, EvidenceRules | validation of a backtest summary against its trades, and its rules |
| Lines, Reals, Results | bytes and lines, real arithmetic, result types |

## Where the code does less than it seems to

The model keeps the code as it is; the lemmas named here say when each happens.

- A session killed exactly between a row's JSON and its newline leaves a bare row, which the loader accepts. The next
  append, of that run or another one sharing the ledger, lands on the same line. If all of it lands, the reload raises
  and the ledger stays unreadable; if only a piece of it lands, the next load sets both aside.
  `ResumeRun.ResumeAfterAnyRunsIff`: whatever runs wrote the ledger and wherever they were killed, a run interrupted any
  number of times finishes if and only if the ledger loads and no session of the run, started on a bare row with work
  missing, got to append a whole further line. `ResumeRun.ResumeEqualsOneRunIff`: from complete rows, or a torn piece
  after them, the ledger then is that of one uninterrupted run. `ResumeRun.BareRowKeptIff`: from a bare row, the run's
  own or another's, the complete rows are kept, and the bare row is kept if and only if nothing was missing or the run
  computes the same row again. `ResumeRun.OtherRunsRowIsLost` gives a start from which a run killed after one byte
  finishes and loses another run's row, while the uninterrupted one raises.
- Lock recovery re-checks the stale file and unlinks it in two calls. `RowsLock.NoStartIsSafe`: from every start some run
  puts two processes inside. `RowsLock.RecoveryIsSafeIff`: after one recovery unlink the other steps alone can do that
  if and only if the unlink took a live owner's lock, which by `RowsLock.RecoveryHarmsIff` it does if and only if the
  re-checked file was replaced in between by one a live process owns. `RowsLock.HarmlessIffExclusiveThroughout` says it
  of whole runs. With re-check and unlink as one step `RowsLock.MutualExclusion` holds.
- Only the object form of the router skips "trend" when the regime window is flat. `RouterDifference.RoutersDifferIff`
  says on which candles the two answer differently, for any periods, and `RouterDifference.AlwaysAgreeIff` for which
  parameters they never do: those with the pullback window within the regime window, or with a trend rule that cannot
  fire. `RouterDifference.MarketThatTellsThemApart` builds simulated bars that tell any other parameters apart, as long
  as "burst" is gated.
- The two routers agree on the direction, not on the confidence. `RouterSimulation.ConfidencesAgreeIff`: the object
  router reports the confidence the fast simulator sizes by exactly when "range" gives the answer.
- One-pass drawdown can miss the worst pair once equity is negative. `Drawdown.OnePassIsWorstPairIff`: it is the worst
  pair exactly when no negative value follows a positive one, or the proportionally lowest negative value comes while
  only one positive level has been seen.
- A time exit is looked at before the stop. `ExitLosses.TimeExitIsWorseIff`: it fills worse than the stop would exactly
  when the limit is reached on a bar that closes strictly beyond the stop.
- `run_three_day_daily_k4_experiment` given a state that was already used still runs the source check before it refuses:
  `Experiment.UsedStateIsRefused`, for every stage but the first.

## Modelling choices

Floats and Decimals are `real`; rounding is not modelled. Timestamps are whole numbers, months are (year, number) pairs
in calendar order, and names that are only compared and sorted are numbers in the order of the names. SHA-256 is an
uninterpreted function and JSON an uninterpreted codec with stated laws, which `CodecExample.SomeCodecIsLawful` shows
can be met. A file system is a map from path to bytes whose every operation may fail; a failed write may land a prefix.
Processes of the lock protocol are interleaved one system call at a time, writing the metadata being one. Dependencies
of the experiment are an oracle whose answers may depend on everything called before. A Python exception is a `Result`,
an `Option` or an outcome value.

## Model

| member | source | states |
|---|---|---|
| AtomicPublish.WriteBytesAtomic | scripts/chart_regime_balance_diagnostic.py:628-715 | For every placement of failures: fewer than two or repeated destinations are rejected untouched; a good call in which nothing fails and the generated names are apart publishes and leaves nothing behind; published means every destination is new, every other path as before, and leftovers are intact backups; after a rollback in which nothing failed every destination is as before, and the whole disk is if no removal failed; leftovers are always generated names whose removal failed; one failure alone is always undone; publication stops at its first failure, and after a rollback a destination is given up if and only if the file system refused to remove it or to rename onto it while rolling back, so that every other one is as before; and at every disk state before success each original is under its own name or its backup, after it every destination is new |
| AtomicPublish.LateGivesBack | scripts/chart_regime_balance_diagnostic.py:674-715 | After a failed publication every destination whose own rollback operations were not refused is as before, whatever else failed |
| AtomicPublish.CleanRollback | scripts/chart_regime_balance_diagnostic.py:674-715 | With no stuck destination and no failed removal the disk is as before, and every destination is unless a generated name took it |
| AtomicPublish.NothingOnCleanFailure | scripts/chart_regime_balance_diagnostic.py:674-715 | Restored with nothing stuck, kept or left means the disk is exactly as before, absent files included |
| AtomicPublish.NamesApartAreValid | scripts/chart_regime_balance_diagnostic.py:578-583 | Generated names that are distinct and no destination pass the validation |
| AtomicPublish.AllOnSuccess | scripts/chart_regime_balance_diagnostic.py:666-673 | A successful call that removed its backups changes exactly the destinations, all to their new bytes |
| AtomicPublish.Disk.Replace | scripts/chart_regime_balance_diagnostic.py:659-662 | A rename moves the bytes or, when it fails, changes nothing |
| AtomicPublish.Stage | scripts/chart_regime_balance_diagnostic.py:644-645 | All contents are staged under fresh names with the originals intact at every step; it fails exactly when an operation failed, and what is left behind is a generated name whose removal failed |
| AtomicPublish.WriteTemp | scripts/chart_regime_balance_diagnostic.py:597-607 | A temporary holds the content under a fresh name, or at most that one name remains, and only if its removal failed |
| AtomicPublish.PlanBackups | scripts/chart_regime_balance_diagnostic.py:646-650 | Backup names are reserved for exactly the existing destinations and hold nothing yet; a leftover is a name whose removal failed |
| AtomicPublish.Prepare | scripts/chart_regime_balance_diagnostic.py:643-655 | Preparation succeeds with every path accounted for, or leaves the originals intact; it fails only if an operation failed or the generated names are not apart |
| AtomicPublish.MoveToBackups | scripts/chart_regime_balance_diagnostic.py:656-665 | Moving the originals aside keeps every path accounted for, and every original recoverable at every step |
| AtomicPublish.Publish | scripts/chart_regime_balance_diagnostic.py:666-672 | Publishing keeps every path accounted for, and every original recoverable at every step |
| AtomicPublish.RollBackOne | scripts/chart_regime_balance_diagnostic.py:677-689 | Undoing one destination restores it or leaves it stuck with its original still under the backup |
| AtomicPublish.Rollback | scripts/chart_regime_balance_diagnostic.py:674-692 | After the rollback loop every destination is as before unless stuck; stuck are exactly those whose own removal or rename was refused, their originals under their kept backups; and it is clean exactly when none of its operations failed |
| AtomicPublish.CleanUp | scripts/chart_regime_balance_diagnostic.py:693-705 | Cleanup removes the given paths, reports those it could not, and touches nothing else |
| AtomicPublish.ClearBackups | scripts/chart_regime_balance_diagnostic.py:700-705 | Clearing the backups disturbs nothing that was published |
| AtomicPublish.Commit | scripts/chart_regime_balance_diagnostic.py:656-713 | From staged content on: all new if nothing fails, else restored, with every original recoverable at every step until success and no destination among the leftovers |
| AtomicPublish.Abandon | scripts/chart_regime_balance_diagnostic.py:674-699 | A failed publication ends restored; leftovers are temporaries whose removal failed and no destination is among them |
| AtomicPublish.AccountedIsRecoverable | scripts/chart_regime_balance_diagnostic.py:656-672 | In every intermediate state each original is under its own name or its recorded backup |
| AtomicPublish.OneMoved | scripts/chart_regime_balance_diagnostic.py:659-662 | Moving one original aside keeps every path accounted for |
| AtomicPublish.OnePublished | scripts/chart_regime_balance_diagnostic.py:666-671 | Publishing one destination keeps every path accounted for |
| AtomicPublish.OneRestored | scripts/chart_regime_balance_diagnostic.py:681-683 | Putting one backup back keeps the rollback invariant |
| AtomicPublish.OneUnlinked | scripts/chart_regime_balance_diagnostic.py:679-687 | Removing, leaving alone or giving up on one destination keeps the rollback invariant |
| CandleWindows.WindowIsItsCopy | scripts/novel_train_test_combo_search.py:852-869 | Every index, every slice and every step, negative, clamped and missing bounds included, reads the same through the view as from a copied slice |
| CandleWindows.StepOneIsPlain | scripts/novel_train_test_combo_search.py:863-865 | A slice with both bounds and step one is the plain slice |
| CandleWindows.SliceHolds | scripts/novel_train_test_combo_search.py:852-869 | A slice holds exactly the elements from its first bound up to its second, negative bounds counted from the end |
| CandleWindows.PositionsHold | scripts/novel_train_test_combo_search.py:852-869 | A stepped slice reads every step-th position from the resolved start for as long as it stays inside the sequence and before the resolved stop |
| CandleWindows.ContextFor | scripts/novel_train_test_combo_search.py:820-837 | The view ends just after the index and has the requested length or all there is |
| CandleWindows.PriorSlice | scripts/novel_train_test_combo_search.py:852-869 | From such a view `[-1-p:-1]` is the p candles before the index |
| PrecomputedMarket.RollingPrior | scripts/scalping_train_test_combo_search.py:668-674 | Entry i is the fold of the p values before i, with the first value in front of a short history |
| PrecomputedMarket.RollingPriorAverage | scripts/scalping_train_test_combo_search.py:677-687 | The running sum gives the mean of the p values before each index |
| PrecomputedMarket.SlideSum | scripts/scalping_train_test_combo_search.py:677-687 | Adding the newest and dropping the oldest value slides the sum of the window |
| PrecomputedMarket.Precompute | scripts/scalping_train_test_combo_search.py:648-665 | The columns describe the candles for every period |
| PrecomputedMarket.DescribedEverywhere | scripts/scalping_train_test_combo_search.py:648-687 | At every index, each high, low or volume column of a period within the index holds the maximum, minimum or mean of exactly that many candles before the index, and the raw columns hold the candles themselves |
| PrecomputedMarket.PriorColumns | scripts/scalping_train_test_combo_search.py:648-687 | The prior window of a column is the column of the prior candles |
| RegimeRouter.EvaluateScalpingDirection | scripts/scalping_train_test_combo_search.py:563-576 | The loop answers with the first nonzero direction in router order |
| RouterRules.TrendAnswers | scripts/scalping_train_test_combo_search.py:579-599 | In prices: long on a wide window, a rise over both lookbacks and a close well below the high; short on a fall and a close well above the low |
| RouterRules.RangeAnswers | scripts/scalping_train_test_combo_search.py:602-619 | In prices: long if and only if the window is wide, the body large, the bar rising and its close near the low; short if and only if falling and near the high |
| RouterRules.BurstAnswers | scripts/scalping_train_test_combo_search.py:622-645 | In prices and volumes: with an upward or downward breakout on enough volume and impulse when it follows, against it when it fades |
| RouterRules.EachKeyAnswers | scripts/scalping_train_test_combo_search.py:563-576 | Each strategy answers for its own key, and range only in a market that has not moved further than it may |
| RouterRules.FirstAnswers | scripts/scalping_train_test_combo_search.py:563-576 | The router answers as the first strategy in its order that answers at all |
| RegimeRouter.FlatRegimeSilencesTrend | scripts/scalping_train_test_combo_search.py:183-186 | On a flat regime window containing the pullback window the fast trend rule is silent as well |
| RouterDifference.TrendContributionDiffersIff | scripts/scalping_train_test_combo_search.py:579-599 | For any periods, the trend contributions differ exactly on a flat regime under a wide pullback window with the closes moved enough, said in prices |
| RouterDifference.RoutersDifferIff | scripts/scalping_train_test_combo_search.py:168-190 | For any periods and any order, the two answers differ exactly when that holds, nothing before "trend" answers, and what follows it does not give the same direction |
| RouterDifference.AlwaysAgreeIff | scripts/scalping_train_test_combo_search.py:563-599 | With "trend" in the order, the routers agree on every bar of every simulation, past the warm-up and over the precomputed periods, if the pullback window lies within the regime window or the trend rule can never fire, and only then unless "burst" is in the order ungated: with no positive volume gate and, besides, a negative buffer or a breakout window within the regime window |
| RouterDifference.BurstMasksTheDifference | scripts/scalping_train_test_combo_search.py:622-645 | Ungated, agreement does not imply that: with "burst" first and any close at all a breakout, the routers agree whatever the other parameters |
| RouterDifference.MarketThatTellsThemApart | scripts/scalping_train_test_combo_search.py:183-186 | For all other parameters with "burst" gated, a simulated bar past the warm-up on which the two answers differ |
| RouterDifference.AgreesWithin | scripts/scalping_train_test_combo_search.py:563-599 | Those parameters agree on every bar both routers can be asked about, inside the warm-up and over any columns too |
| RegimeRouter.TrendAgrees | scripts/scalping_train_test_combo_search.py:56-82 | Array and object form of the trend rule give the same direction |
| RegimeRouter.RangeAgrees | scripts/scalping_train_test_combo_search.py:92-114 | Array and object form of the range rule give the same direction |
| RegimeRouter.BurstAgrees | scripts/scalping_train_test_combo_search.py:127-155 | Array and object form of the burst rule give the same direction |
| RegimeRouter.ContributionsAgree | scripts/scalping_train_test_combo_search.py:168-190 | With the regime gates, each strategy contributes the same direction in both forms |
| RegimeRouter.RoutersAgree | scripts/scalping_train_test_combo_search.py:158-190 | Over well-formed candles both routers give the same direction at every index past the warm-up, for every view length and every router order |
| RouterSimulation.ConfidencesAgreeIff | scripts/scalping_train_test_combo_search.py:503-510 | The object router's confidence is the one the fast simulator sizes by exactly when the first strategy that does not wait is "range" |
| RouterSimulation.FastRunTradesAsObjectRun | scripts/scalping_train_test_combo_search.py:425-534 | Over the array router the simulator makes the trades that a run over the object router sized by its own confidence makes, and ends with the same account if every answer is sized alike |
| RouterSimulation.AllSizedAlikeIff | scripts/scalping_train_test_combo_search.py:507-511 | With sizes that depend on confidence, every answer is sized alike exactly when "range" gives each |
| RouterSimulation.OpenedAlikeIff | scripts/scalping_train_test_combo_search.py:507-514 | Two opened positions are the same exactly when their confidences size them alike |
| RollingWindows.RollingRange.Append | scripts/agent_range_combo_search.py:222-236 | Appending observes the candle and keeps both deques the falling records of the last `period` candles, with no more pops than pushes |
| RollingWindows.RollingRange.CurrentRange | scripts/agent_range_combo_search.py:238-241 | The low and high of the last `period` observed candles, and None before there are that many |
| RollingWindows.RollingRange.Range | scripts/agent_range_combo_search.py:210-220 | A repeated time changes nothing, an earlier one starts over with the candle before the newest, any other observes that candle; the answer is the range of the last observed |
| RollingWindows.Push | scripts/novel_train_test_combo_search.py:1049-1057 | Popping the beaten tail keeps the deque monotonic and covering |
| RollingWindows.DropOld | scripts/novel_train_test_combo_search.py:1058-1062 | Popping the expired front keeps it covering the later window |
| RollingWindows.FrontIsExtreme | scripts/novel_train_test_combo_search.py:1064-1067 | The front of such a deque is the extreme of its window |
| RollingWindows.ConsecutiveCallsSeeEveryCandle | scripts/novel_train_test_combo_search.py:1039-1047 | Called at consecutive indexes a range observes each candle before the newest once |
| RollingWindows.ConsecutiveCallsMatchTheSlice | scripts/novel_train_test_combo_search.py:1039-1067 | On consecutive calls the rolling range is the low and high of the view's `[-period-1:-1]` |
| RollingWindows.RollingAverage.Average | scripts/novel_train_test_combo_search.py:1070-1090 | The running total over the deque is the mean of the last `period` volumes, and 0 before |
| FeatureShard.LinesSplitTheFile | scripts/chart_regime_strategy_mapping.py:4776-4781 | The terminated lines and the unterminated rest, joined by newlines, are the file, and no line holds a newline |
| FeatureShard.IndexedJsonlShard.BuildIndex | scripts/chart_regime_strategy_mapping.py:4760-4859 | Indexing succeeds exactly on files whose first rows parse, count up minute by minute, declare their sources and are point-in-time safe; the offsets then are the first lines, and a full index also matches length and hash |
| FeatureShard.IndexableIff | scripts/chart_regime_strategy_mapping.py:4760-4859 | A file can be indexed if and only if the target lies within the plan, each of its first lines is a row of its minute, instrument and sources with nothing later than the minute, and the whole file, if asked for, has no byte more and its recorded hash |
| FeatureShard.IndexedJsonlShard.IndexLine | scripts/chart_regime_strategy_mapping.py:4776-4826 | One step finds the next line and accepts it or not |
| FeatureShard.RowAtIsScan | scripts/chart_regime_strategy_mapping.py:4861-4874 | Index arithmetic returns the one row whose minute contains the instant, as a linear scan does, and never meets an unsafe row |
| FeatureShard.IndexReachesTheEnd | scripts/chart_regime_strategy_mapping.py:4760-4874 | A built index finds the row of every minute that ends by the required end and the end of the shard, and unless the whole file was asked for holds no later one |
| FeatureShard.RowAtIsPointInTime | scripts/chart_regime_strategy_mapping.py:4861-4874 | No feature of a returned row was observed or available after the instant |
| FeatureProvider.MergeParts | scripts/chart_regime_strategy_mapping.py:4976-4989 | The merge succeeds exactly when no two shards disagree on a name, and is the union |
| FeatureProvider.AddPart | scripts/chart_regime_strategy_mapping.py:4980-4987 | Adding one shard's row succeeds exactly when it agrees with what is merged |
| FeatureProvider.MergeIgnoresOrder | scripts/chart_regime_strategy_mapping.py:4976-4989 | The merge does not depend on the order of the shards |
| FeatureProvider.AgreementIgnoresOrder | scripts/chart_regime_strategy_mapping.py:4976-4989 | Whether it succeeds does not depend on the order either |
| FeatureProvider.AnswerIsUnique | scripts/chart_regime_strategy_mapping.py:4990-5002 | A request has one right answer, so a cached and a recomputed one are equal |
| FeatureProvider.AnswerIsOfRows | scripts/chart_regime_strategy_mapping.py:4967-5002 | An answer holds exactly the features that some shard gives in its row of that minute, and as unavailable exactly the sources that some shard lacks and no value comes from |
| FeatureProvider.AnswerIsPointInTime | scripts/chart_regime_strategy_mapping.py:4990-5002 | No answer holds a value observed or available after its instant |
| FeatureProvider.TouchKeepsLast | scripts/chart_regime_strategy_mapping.py:4971-5006 | Moving a key to the end and evicting the oldest keeps exactly the last distinct keys used |
| FeatureProvider.OrderedByLastUse | scripts/chart_regime_strategy_mapping.py:4971-5006 | Keys are kept in the order of their last use |
| FeatureProvider.IndexedCompositeFeatureProvider.LoadFeatures | scripts/chart_regime_strategy_mapping.py:4966-5006 | For every request the cached provider answers with the uncached merge; it raises exactly when closed, out of bounds or in conflict, and then changes nothing; the cache holds the most recently used keys up to its capacity |
| FeatureProvider.IndexedCompositeFeatureProvider.Close | scripts/chart_regime_strategy_mapping.py:5008-5014 | Closing empties the cache and closes every shard; closing again changes nothing |
| Drawdown.OnePass | scripts/audit_three_day_k4_daily_mapping.py:1511-1520 | The loop with a running peak gives the deepest fall below the highest value so far |
| Drawdown.NoPairFallsFurther | scripts/audit_three_day_k4_daily_mapping.py:1511-1520 | On a nonnegative curve no pair falls further, and the drawdown lies in [0, 1] |
| Drawdown.SomePairFallsThatFar | scripts/audit_three_day_k4_daily_mapping.py:1511-1520 | Some pair falls exactly that far |
| Drawdown.OnePassIsWorstPairIff | scripts/audit_three_day_k4_daily_mapping.py:1511-1520 | For every curve, no pair falls further exactly when no negative value follows a positive one, or the proportionally lowest negative value comes while only one positive level has been seen |
| Drawdown.NegativeOnlyAtTheEnd | scripts/audit_three_day_k4_daily_mapping.py:1511-1520 | When only the last value is negative, exactly when all positive values before it are equal |
| Drawdown.NegativeEquityBreaksThePairing | scripts/audit_three_day_k4_daily_mapping.py:1516-1519 | A curve on which a pair falls further |
| Drawdown.PositiveCurveKeepsDrawdownBelowOne | scripts/audit_three_day_k4_daily_mapping.py:1516-1519 | While equity stays positive the drawdown stays below one |
| Drawdown.DeeperFollows | scripts/scalping_train_test_combo_search.py:498-500 | A running peak and drawdown that follow a curve keep following it |
| ScalpingSimulator.Simulate | scripts/scalping_train_test_combo_search.py:457-534 | The loop computes the run it is specified by, the end-of-data close included |
| SimulatorTrades.RunIsItsTrades | scripts/scalping_train_test_combo_search.py:457-534 | Every run is a sequence of trades: while flat the first nonzero signal opens on its own side at that close, sized by the equity of the moment; the first later bar to touch stop or take closes it, at the stop if touched, else at the take, or the last close does; prices slip against the side; and each gross return is the signed relative move from entry to exit, from which returns, fees, wins and equity follow |
| SimulatorTrades.OpensOnItsSide | scripts/scalping_train_test_combo_search.py:505-520 | A signal opens a position of its own sign, entered at the close slipped against it, with margin and notional as sized |
| SimulatorTrades.ExitIsTouched | scripts/scalping_train_test_combo_search.py:465-484 | A bar closes at the stop if it touches it, else at the take if it touches that, else not at all |
| ScalpingSimulator.OutcomeIsBalanced | scripts/scalping_train_test_combo_search.py:484-534 | In every run equity is 10000 plus gross profit less fees, every list has one entry per trade, and peak and drawdown are those of the equity curve |
| ScalpingSimulator.ExitIsInsideStop | scripts/scalping_train_test_combo_search.py:461-480 | However a bar leaves a position, the price before slippage is no worse than the stop |
| ScalpingSimulator.EntryIsInsideStop | scripts/scalping_train_test_combo_search.py:503-514 | A slipped entry lies inside its own stop when (1-slippage)(1+stop) is at least 1 |
| ScalpingSimulator.FillLosesAtMost | scripts/scalping_train_test_combo_search.py:482-483 | A fill from inside the stop loses at most (1+stop)(1+slippage)-1 |
| ScalpingSimulator.TradeKeepsShare | scripts/scalping_train_test_combo_search.py:482-497 | One trade keeps at least the share 1-c of equity |
| ScalpingSimulator.StoppedShortLosesTheShare | scripts/scalping_train_test_combo_search.py:471-497 | The share is exact: a stopped-out short loses all of it |
| ScalpingSimulator.RunIsSound | scripts/scalping_train_test_combo_search.py:457-515 | Between any two bars equity is above the geometric bound and an open position is inside its stop |
| ScalpingSimulator.EquityBound | scripts/scalping_train_test_combo_search.py:425-534 | After n trades equity is at least 10000(1-c)^n with c = exposure((1+stop)(1+slippage)-1+2 fee), so it stays positive and drawdown below one |
| ExitModels.OpenPosition.StopTakeExit | scripts/search_scalping_exit_models.py:433-450 | The two branches are one rule in the direction of the trade, the stop first |
| ExitModels.OpenPosition.TrailingExit | scripts/search_scalping_exit_models.py:356-388 | The long and short branches are one rule: hard stop, then arming, then moving and testing the trailing stop |
| ExitModels.OpenPosition.PartialTrailingExit | scripts/search_scalping_exit_models.py:391-430 | The same, with one partial exit when it arms |
| ExitModels.OpenPosition.ExitForCandle | scripts/search_scalping_exit_models.py:308-325 | Dispatches by kind, the time limit before the stop; an unknown kind raises and changes nothing |
| ExitModels.ClosedConserves | scripts/search_scalping_exit_models.py:453-475 | For every sequence of partial exits and a close: the legs' shares add up to 1, gross profit is the notional times their weighted return, and fees are exactly two sides of the notional |
| ExitModels.RemainingNeverGrowsIff | scripts/search_scalping_exit_models.py:453-459 | No sequence of asks closes more than remains, and what remains never grows exactly when no ask is negative |
| ExitModels.ExtremeIsExtreme | scripts/search_scalping_exit_models.py:369-372 | The running extreme is the maximum of the highs, or minimum of the lows, since arming |
| ExitModels.LifeUnderTrailingStop | scripts/search_scalping_exit_models.py:356-430 | A position under either trailing kind is still held exactly when no bar since entry hit the hard stop and none since arming the trailing stop; it then is the closed form of its history, armed once with at most one partial; otherwise it left on the first such bar at that stop |
| ExitModels.LifeBetweenBarriers | scripts/search_scalping_exit_models.py:328-353 | A position under the fixed, timed or volatility-scaled kinds is held unchanged exactly while no bar since entry touched a barrier and no limit was reached, and leaves on the first bar where one was: time before stop, stop before take |
| ExitModels.TrailTightensIff | scripts/search_scalping_exit_models.py:370-371 | From one bar to a later one the trailing stop has not loosened if and only if no better price was seen in between or the trail is at most 1 for a long, at least -1 for a short |
| ExitModels.ArmedStaysArmed | scripts/search_scalping_exit_models.py:365-368 | Arming never undoes |
| ExitModels.Simulate | scripts/search_scalping_exit_models.py:196-283 | The loop over mutable positions computes the run it is specified by; an unknown kind raises |
| ExitModels.OutcomeBalances | scripts/search_scalping_exit_models.py:227-283 | In every run equity is 10000 plus gross less fees, fees are two sides of every closed notional, exit reasons count up to the trades, drawdown follows the curve, and positions follow one another without overlap |
| ExitTrades.RunIsItsTrades | scripts/search_scalping_exit_models.py:196-283 | Every run of every supported kind is a sequence of trades: entered on the side of the first nonzero signal while flat, left on the first bar that ends them, by time, stop, take, hard stop or fall from the peak since arming, at that price slipped against the side, or at the last close; equity and returns follow from the signed moves of both legs and both fees |
| ExitTrades.GrossIsOfLegs | scripts/search_scalping_exit_models.py:437-475 | Gross profit is the notional times the signed moves of the early leg, if the position armed before it left, and of the rest |
| ExitTrades.WinsAreCounted | scripts/search_scalping_exit_models.py:227-283 | Gross wins are the trades with a gross profit, net wins those after which equity is higher |
| ExitModels.TrailingRunIsDescribed | scripts/search_scalping_exit_models.py:221-283 | Every trade of a trailing run left exactly when and where the stops over its bars say |
| ExitModels.TimeLimitHolds | scripts/search_scalping_exit_models.py:334-338 | A time-limited candidate holds no position longer than max(1, limit) minutes, the end-of-data close included |
| ExitLosses.BarrierExitIsWorseIff | scripts/search_scalping_exit_models.py:328-353 | Between barriers an exit fills worse than the bar's stop exactly when the time limit closes beyond it, or the take is set beyond it and reached |
| ExitLosses.TimeExitIsWorseIff | scripts/search_scalping_exit_models.py:311-338 | A time-limited candidate fills worse than its stop exactly when the limit is reached on a bar that closes strictly beyond it |
| ExitLosses.TrailStaysInside | scripts/search_scalping_exit_models.py:356-430 | The trailing kinds never fill worse than their hard stop |
| ExitLosses.BarStaysInside | scripts/search_scalping_exit_models.py:308-430 | For every kind but the timed one, a bar fills a position inside its farthest stop or leaves it closing there |
| ExitLosses.CloseLosesAtMost | scripts/search_scalping_exit_models.py:462-475 | Partial exits included, a trade closed from inside its stop loses at most (1+stop)(1+slippage)-1 and both fees of its notional |
| ExitLosses.RunLosesAtMost | scripts/search_scalping_exit_models.py:196-283 | For every kind but the timed one, each trade of any run fills inside its farthest stop, equity is at least 10000(1-c)^n after n trades, and drawdown stays below one, the end-of-data close included |
| ExitLosses.TimeExitIgnoresTheStop | scripts/search_scalping_exit_models.py:311-313 | A bar on which that happens |
| RowsLock.MutualExclusion | scripts/incremental_walk_forward_runner.py:169-290 | With re-check and unlink as one step: over every interleaving of any number of processes that create, write, fail, hold, crash, recover and release, no two live ones are inside |
| RowsLock.LiveOwnersLockSurvives | scripts/incremental_walk_forward_runner.py:210-290 | Over every such run, no step but its owner's release removes the lock of a live process that takes, has or is releasing it |
| RowsLock.UnsplitHits | scripts/incremental_walk_forward_runner.py:282-286 | In a run whose every recovery unlink comes right after its own re-check, each still finds the inode it re-checked |
| RowsLock.UnsplitRunsExclude | scripts/incremental_walk_forward_runner.py:169-290 | So in every such run no two live processes are inside |
| RowsLock.ReleaseFrees | scripts/incremental_walk_forward_runner.py:200-242 | A process inside that leaves, undisturbed, removes its lock file and nothing else |
| RowsLock.ReleaseGoesOn | scripts/incremental_walk_forward_runner.py:210-242 | While the lock file is its own, whatever others do, each call of a leaving process takes it one call further and the last removes the file |
| RowsLock.ForeignLockIsLeft | scripts/incremental_walk_forward_runner.py:230-236 | A leaving process that finds another owner in the file leaves it alone |
| RowsLock.FreeLockIsTaken | scripts/incremental_walk_forward_runner.py:184-206 | A process that tries while there is no lock file gets inside, with its own name in the file |
| RowsLock.StaleLockIsRecovered | scripts/incremental_walk_forward_runner.py:245-290 | A process that finds the lock of a dead one, or malformed metadata older than the stale time, removes it |
| RowsLock.FreshLockIsAwaited | scripts/incremental_walk_forward_runner.py:245-281 | One that finds the lock of a live process, or younger malformed metadata, changes nothing and tries again |
| RowsLock.RecheckPassesIff | scripts/incremental_walk_forward_runner.py:282-284 | A re-check passes if and only if the file still has the inode and content that were judged |
| RowsLock.HarmlessRunsExclude | scripts/incremental_walk_forward_runner.py:169-290 | The weaker condition behind them: it is enough that no recovery takes a lock from a live owner |
| RowsLock.AllHitIsAllHarmless | scripts/incremental_walk_forward_runner.py:282-286 | A run whose recoveries still find what they re-checked takes no lock from a live owner |
| RowsLock.StepKeepsInv | scripts/incremental_walk_forward_runner.py:169-290 | Every step of every process that takes no live owner's lock keeps the protocol's invariant |
| RowsLock.RunKeepsInv | scripts/incremental_walk_forward_runner.py:169-290 | So does every run of such steps |
| RowsLock.HittingIsHarmless | scripts/incremental_walk_forward_runner.py:282-286 | A recovery that still finds the inode it re-checked removes no lock of a live process |
| RowsLock.RecoveryHarmsIff | scripts/incremental_walk_forward_runner.py:282-286 | A recovery unlink takes a live owner's lock exactly when the re-checked file was replaced in between by one a live process owns |
| RowsLock.RecoveryIsSafeIff | scripts/incremental_walk_forward_runner.py:282-286 | After a recovery unlink, no continuation without further recovery unlinks puts two processes inside if and only if it took no live owner's lock |
| RowsLock.HarmlessIffExclusiveThroughout | scripts/incremental_walk_forward_runner.py:169-290 | Along any run, no recovery takes a live owner's lock if and only if from no point of it the steps other than recovery unlinks can put two processes inside |
| RowsLock.HarmAdmitsTwo | scripts/incremental_walk_forward_runner.py:282-286 | From every recovery unlink that takes a live owner's lock, two processes get inside without a further one |
| RowsLock.NoStartIsSafe | scripts/incremental_walk_forward_runner.py:169-290 | As two calls, re-check and unlink are safe from no start: from each, some run puts two processes inside |
| ResumeLedger.ReadRows | scripts/incremental_walk_forward_runner.py:102-150 | The reading loop computes the specified load: merged rows, the torn tail, or the ValueError |
| ResumeLedger.LedgerFile.LoadRows | scripts/incremental_walk_forward_runner.py:102-150 | Loading cuts the torn tail off, so that the file and the tail are the old file; a tail whose digest has no entry yet is quarantined under it byte for byte; no entry is changed and no other added; a ValueError changes nothing |
| ResumeLedger.MergeCharacterized | scripts/incremental_walk_forward_runner.py:143-149 | Duplicates merge and conflicts raise: loading succeeds exactly when no two rows share a key and differ |
| ResumeLedger.TornTailIsRecovered | scripts/incremental_walk_forward_runner.py:118-136 | Complete rows and any proper byte prefix of one more row load to exactly the complete rows, the file is cut to them, and a second load changes nothing |
| ResumeLedger.LoadIsStable | scripts/incremental_walk_forward_runner.py:102-150 | For every file, loading what a load left gives the same rows and cuts nothing |
| CodecExample.SomeCodecIsLawful | scripts/incremental_walk_forward_runner.py:118-122 | The laws assumed of JSON can be met |
| ResumeRun.JobsAreDistinct | scripts/incremental_walk_forward_runner.py:619-623 | With unique candidate ids every (candidate, fold) of the run is one job |
| ResumeRun.JobsInOrder | scripts/incremental_walk_forward_runner.py:616-623 | They are worked off fold by fold, and within a fold candidate by candidate |
| ResumeRun.RunIncremental | scripts/incremental_walk_forward_runner.py:616-645 | The loop with its reloads computes the specified session, killed anywhere, and keeps everything quarantined, the torn tail it started on included |
| ResumeRun.WriteRow | scripts/incremental_walk_forward_runner.py:81-99 | An equal row is left alone, a conflicting one raises, a new one is appended after a reload; nothing quarantined is lost |
| ResumeRun.SessionGetsTo | scripts/incremental_walk_forward_runner.py:616-645 | A session killed anywhere leaves the earlier rows, some of the missing ones in order, and at most a torn piece of the next |
| ResumeRun.MissingAfter | scripts/incremental_walk_forward_runner.py:355-364 | What is missing then is the rest of what was missing before |
| ResumeRun.ResumeEqualsOneRunIff | scripts/incremental_walk_forward_runner.py:616-645 | On a ledger of complete rows followed by nothing, a torn piece or any run's bare row, and after any number of interruptions anywhere, one more session finishes if and only if no session that started on a bare row with work missing appended a whole further line; the ledger is then unchanged if nothing was missing after a bare row, and otherwise byte for byte what one uninterrupted run makes of the complete rows, less the last newline if that was never written |
| ResumeRun.EveryLedgerStarts | scripts/incremental_walk_forward_runner.py:81-150 | Whatever sessions of whatever runs wrote it and wherever they were killed, a ledger that still loads is complete rows followed by one of these |
| ResumeRun.ResumeAfterAnyRunsIff | scripts/incremental_walk_forward_runner.py:616-645 | So from every ledger that runs can leave, an interrupted run finishes if and only if the ledger loads and none of its sessions glued a line to a bare row |
| ResumeRun.BareRowKeptIff | scripts/incremental_walk_forward_runner.py:102-150 | A run that finishes keeps every complete row, and keeps a bare row if and only if nothing was missing or it computes the same row itself |
| ResumeRun.OtherRunsRowIsLost | scripts/incremental_walk_forward_runner.py:102-150 | On another run's bare row with work missing, a run killed after one byte and resumed finishes without that row, while an uninterrupted one raises |
| ResumeRun.SessionFromBare | scripts/incremental_walk_forward_runner.py:102-150 | What a session makes of a bare row: done if nothing is missing, dead if it lands a whole line, otherwise killed with a piece appended to the row |
| ResumeRun.LoadSetAside | scripts/incremental_walk_forward_runner.py:118-136 | A torn row, or a bare row with a piece of the next one after it, is set aside whole |
| ResumeRun.OneKillFinishesIff | scripts/incremental_walk_forward_runner.py:110-136 | After one kill the next session finishes exactly when the kill was not between a row and its newline, or that row was the last |
| ResumeRun.EachJobOnce | scripts/incremental_walk_forward_runner.py:355-364 | The finished ledger records each job exactly once and adds nothing else |
| FoldBoundaries.Validated | scripts/incremental_walk_forward_runner.py:491-532 | Accepts exactly the rows that number their folds one to one and without a gap, and returns that numbering |
| FrozenPayload.CleanExcusesAll | scripts/chart_regime_strategy_mapping.py:231-262 | A payload the search accepts has no forbidden key at any depth outside the two permitted mentions of the Test interval |
| FrozenPayload.AllExcusedIsClean | scripts/chart_regime_strategy_mapping.py:231-262 | The search accepts every payload of which that is true |
| FrozenPayload.ForbiddenIff | scripts/chart_regime_strategy_mapping.py:231-240 | Forbidden are "test", "comparisons" and every name that starts with "test_", once normalized |
| FrozenPayload.NormalizedIs | scripts/chart_regime_strategy_mapping.py:239 | Normalizing strips the blanks at both ends and nothing else |
| FrozenPayload.FreezeAcceptsIff | scripts/chart_regime_strategy_mapping.py:265-280 | A payload can be frozen exactly when it is a freezable mapping without such a key |
| Experiment.LoadTestAfterFreeze | scripts/chart_regime_strategy_mapping.py:304-351 | The Test loader is called only with a freeze whose digest is right, only at the stage after it; its result is accepted or refused as specified |
| Experiment.RunExperiment | scripts/chart_regime_strategy_mapping.py:1576-1802 | The program makes exactly the calls, events and failures of the specified run, for every oracle |
| Experiment.LogIsPrefixOfChain | scripts/chart_regime_strategy_mapping.py:192-207 | However dependencies fail, the event log is a numbered prefix of the fixed chain, complete exactly when nothing failed |
| ExperimentRecord.LogReads | scripts/chart_regime_strategy_mapping.py:165-207 | The log is the twelve events with their numbers, stages and boundaries exactly when nothing failed, otherwise a proper prefix of them |
| ExperimentRecord.RunIsRecorded | scripts/chart_regime_strategy_mapping.py:1590-1802 | However dependencies answer or fail, every call goes to the callable that is due with exactly the artifacts it is due, its answer is kept as given, and each artifact is frozen under its own name and nothing else is |
| ExperimentRecord.TestRepeatsTheFreeze | scripts/chart_regime_strategy_mapping.py:304-352 | In a finished run the Test result repeats the digest of the freeze and each of its five identities, or has none where the freeze has none |
| Experiment.TestLoaderRunsOnceAfterFreeze | scripts/chart_regime_strategy_mapping.py:1695-1711 | The Test loader runs at most once, only at PRE_TEST_FROZEN, only with the freeze, which holds no Test material; nothing Test-side runs earlier |
| Experiment.TestResultBelongsToFreeze | scripts/chart_regime_strategy_mapping.py:316-345 | A finished run's Test result names the run's own freeze hash, model, manifest, mapping and profile |
| Experiment.SelectionIgnoresTest | scripts/chart_regime_strategy_mapping.py:1576-1694 | Two runs that differ only in Test data, comparisons, report and publishing are identical up to and including the freeze |
| Experiment.SelectionIsKept | scripts/chart_regime_strategy_mapping.py:1695-1802 | Nothing after the freeze changes what was selected |
| Experiment.TestCannotReachSelection | scripts/chart_regime_strategy_mapping.py:1576-1802 | So finished runs agree on model, mapping, baseline and frozen payload for every Test side |
| Experiment.UsedStateIsRefused | scripts/chart_regime_strategy_mapping.py:1590-1596 | A used state is refused untouched, after the source check has run |
| Months.PreviousMonths | scripts/discover_metrics_entry_alpha.py:346-353 | Counting the offset down lists the same months as dividing |
| Months.CalendarMonths | scripts/evaluate_train_selected_walk_forward.py:540-553 | Stepping with a carry lists every month from start up to end, or raises |
| Months.CalendarIsPriorIff | scripts/evaluate_train_selected_walk_forward.py:540-598 | The stepped list of the count months before a date is the divided one exactly when count is positive and the first month is a date |
| Months.PriorMonthsTile | scripts/evaluate_train_selected_walk_forward.py:592-598 | The list ascends month by month without a gap and ends just before the month |
| Months.NextIsPlusOne | scripts/evaluate_train_selected_walk_forward.py:586-589 | Stepping with a carry adds one month |
| TrainSelection.Deduplicate | scripts/evaluate_train_selected_walk_forward.py:296-318 | Succeeds exactly when rows of one candidate and month say the same, and keeps the first of each in order |
| TrainSelection.IndexRows | scripts/evaluate_train_selected_walk_forward.py:349-370 | Succeeds exactly when every month has one pair of bounds, and files each row under its month and candidate |
| TrainSelection.ValidBoundariesAgree | scripts/evaluate_train_selected_walk_forward.py:364-366 | Validated rows never disagree on a month's bounds |
| TrainSelection.CellIsFirstMatch | scripts/evaluate_train_selected_walk_forward.py:296-370 | Through deduplication and indexing a cell holds the first row of its candidate and month |
| TrainSelection.UniqueThenMonths | scripts/evaluate_train_selected_walk_forward.py:296-318 | Deduplicating and restricting to some months commute |
| TrainSelection.TestRowsAreTheMonth | scripts/evaluate_train_selected_walk_forward.py:368 | The rows filed under a month are the rows of that month, in order |
| TrainSelection.Compound | scripts/evaluate_train_selected_walk_forward.py:611-615 | The loop compounds the returns |
| TrainSelection.GrowthPositive | scripts/evaluate_train_selected_walk_forward.py:611-615 | With every return above -1 growth stays positive |
| TrainSelection.GatedScoreIsPositive | scripts/evaluate_train_selected_walk_forward.py:443-502 | Whatever passes the train gate has traded and has a positive score |
| TrainSelection.RankingIsRight | scripts/evaluate_train_selected_walk_forward.py:383-392 | The ranking holds exactly the candidates with every train month that pass the gate, by score and then name |
| TrainSelection.RankingIsUnique | scripts/evaluate_train_selected_walk_forward.py:392 | A ranking is determined by what it ranks |
| TrainSelection.EvaluateFold | scripts/evaluate_train_selected_walk_forward.py:373-440 | The fold's selections are the first of the ranking, with their test results, status and returns |
| TrainSelection.EvaluateRows | scripts/evaluate_train_selected_walk_forward.py:30-65 | Validation, symbol filter, deduplication, indexing and folds compute the specified evaluation or error |
| FoldReport.FoldIsReported | scripts/evaluate_train_selected_walk_forward.py:373-440 | Every fold selects the best of the candidates eligible on the train months, in order, up to the limit; each has the first row of its candidate in the test month, if any; the reported returns are the first selection's and the mean of all, a missing row paying nothing; and the status says how many were missing |
| FoldReport.EvidenceIs | scripts/evaluate_train_selected_walk_forward.py:443-502 | Train evidence is the compounded return, the count and share of positive months, the trade-weighted expectancy, the trades, the worst drawdown and the score of exactly those rows |
| FoldReport.EntryIffEligible | scripts/evaluate_train_selected_walk_forward.py:373-392 | A candidate is ranked if and only if it has a row for every train month and gained, in at least half of them, at a positive expectancy, on enough trades |
| FoldReport.FoldsCoverTheMonths | scripts/evaluate_train_selected_walk_forward.py:46-65 | There is one fold for each month of the window, in order: every month when both ends are given, otherwise every month that has a row |
| FoldReport.RefusedIff | scripts/evaluate_train_selected_walk_forward.py:40-58 | Which of the five errors an evaluation gives, and that it gives a result otherwise: options, then rows, then contradictions among the symbol's rows, then the window |
| TrainSelection.TrainingPrecedesTest | scripts/evaluate_train_selected_walk_forward.py:53 | Every train month lies before the test month |
| TrainSelection.SelectionSeesOnlyTrainMonths | scripts/evaluate_train_selected_walk_forward.py:30-440 | Two evaluations whose rows agree on a fold's train months choose the same candidates with the same ranks, scores and evidence, whatever their other rows |
| TrainSelection.FoldSeesOnlyItsMonths | scripts/evaluate_train_selected_walk_forward.py:30-440 | If the rows of the test month agree too, the whole fold is the same |
| TradeEvidence.Validate | scripts/chart_regime_strategy_mapping.py:2174-2302 | Accepts exactly the evidence whose trades are valid and in order and whose every number matches its trades, and returns the recomputed numbers |
| EvidenceRules.AcceptedIff | scripts/chart_regime_strategy_mapping.py:2174-2436 | Evidence is accepted if and only if its count and equity are its own, every trade fits its prices, side, time and margin, no trade starts before the one before it ended, and every stated number is near the one the trades give |
| EvidenceRules.RecomputedIsSummary | scripts/chart_regime_strategy_mapping.py:2224-2302 | The recomputed numbers are the sums, rates, drawdown and profit factor of the trades |
| EvidenceRules.SummaryIsOne | scripts/chart_regime_strategy_mapping.py:2224-2302 | and those determine every one of them |
| TradeEvidence.Reconstruct | scripts/chart_regime_strategy_mapping.py:2270-2279 | The equity loop gives the drawdown of the equity curve |
| TradeEvidence.TradesAreDisjoint | scripts/chart_regime_strategy_mapping.py:2219-2223 | From the checks on neighbours alone no two trades overlap |
| TradeEvidence.HoldingAndIdleTile | scripts/chart_regime_strategy_mapping.py:2366-2378 | Holding time and idle time make up the elapsed time exactly, and neither is negative |
| TradeEvidence.WeekHoldsTenThousandBars | scripts/chart_regime_strategy_mapping.py:2366-2378 | A seven-day episode holds at most 10080 bars of trading and at most as many trades |
| TradeEvidence.SummaryFollowsFromPrices | scripts/chart_regime_strategy_mapping.py:2224-2232 | Gross profit and fees follow from prices and quantities, and equity moves by their difference, within a tolerance per trade |
| TradeEvidence.CurveSpansEquity | scripts/chart_regime_strategy_mapping.py:2270-2279 | The curve runs from the initial to the final equity by the trades' net profits |
| TradeEvidence.AcceptedEvidence | scripts/chart_regime_strategy_mapping.py:2174-2302 | Accepted evidence has disjoint trades, at most 10080 holding bars, and return and drawdown within tolerance of its trades |

## Left out

- RowsLock.MutualExclusion: asks that a recovery unlink still finds the inode it re-checked, which the code does not ensure (RowsLock.NoStartIsSafe), and assumes that inodes and tokens are fresh, that pids are not reused and that a live creator writes its metadata within the stale time; none of these is ensured either.
- RowsLock.LiveOwnersLockSurvives: under the same assumptions.
- RowsLock.StepKeepsInv: writing, flushing and closing the owner's metadata are one step, which may leave malformed or complete metadata when it fails; the waits and the two timeouts are steps that may happen at any time.
- ResumeRun.WriteRow: the append of the ledger class in `src` is taken as append-if-absent under the lock, one write after another.
- AtomicPublish.WriteBytesAtomic: an exception between two statements, symbolic links, hard links, junctions and writers outside the call are not modelled, nor is the order in which directories are flushed.
- RegimeRouter.RoutersAgree: asks for a positive minimum range ratio and a pullback period within the regime window, as the searched grids have; RouterDifference covers the other periods.
- ScalpingSimulator.EquityBound: asks that an entry lies inside its own stop and that exposure times the worst loss stays below one; a bar that opens beyond the stop is filled at the stop, as in the code.
- ScalpingSimulator.Simulate: the direction per bar is an argument, supplied by the routers in RouterSimulation; the cache of precomputed columns and the averages of the returned report are not modelled.
- ExitModels.Simulate: the router's direction after the entry filter is a field of the bar; averages and trades per day are not computed.
- ExitLosses.RunLosesAtMost: asks for targets inside the stop, nonnegative partial ratios, an entry inside its own stop and less than all equity at stake per trade.
- RouterDifference.AlwaysAgreeIff: its converse asks that burst is gated (RouterDifference.BurstIsGated), as it is in the searched grids; ungated it can fail (RouterDifference.BurstMasksTheDifference), and RouterDifference.RoutersDifferIff, which has no such condition, decides bar by bar.
- FeatureShard.IndexedJsonlShard.BuildIndex: the slice hash, source counters and progress messages are not modelled.
- FeatureProvider.IndexedCompositeFeatureProvider.LoadFeatures: the values' text and the provider's identity hashes are not modelled.
- Experiment.RunExperiment: the contents of the report and the payload of each artifact are uninterpreted; a Test result's provenance is read as a field.
- Experiment.SelectionIsKept: artifacts are immutable values; a callable that changes a shared object after the freeze is outside the model.
- FrozenPayload.FreezeAcceptsIff: lower case and blanks are those of ASCII, and the kind of an unfreezable value is not told apart.
- TrainSelection.EvaluateRows: parsing of rows and month texts, the out-of-sample series and their summaries.
- TradeEvidence.Validate: missing fields, text forms of numbers and the feature identity checks; which of two problems is reported first may differ.
- Months.CalendarIsPriorIff: months are pairs, so that the order of their four-digit texts is the order of months is not proved.
- `select_walk_forward`: the same non-interference as the train selection, with a simpler score.
- `_MemoryEvidenceLedger`: append-if-absent by key, as in the resume ledger.
- Exchange downloads, zip and CSV reading, endpoints, databases and wiring.
- Clustering, statistical tests and other library numerics.
- Candidate grids, ranking keys of the searches, argument parsing, rendering and logging.
