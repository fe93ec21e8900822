# Verified model of the BSC meme-token runner

This project models six parts of the trading system and proves what they
guarantee over every input, every run and every interleaving:

- **The adaptive trailing stop.** `TrailRule` states the exit rule from
  scratch over everything that was observed since a position was opened.
  `TrailMachine` is the machine that keeps a peak, two flags and a ten-slot
  circular buffer; it is proved to decide what the rule decides.
  `TrailWatcher` is the per-token loop with the vote in front of the step,
  `Sniper` the lifecycle of snipe positions. `TrailTheorems` and `TrailScale`
  prove relations between whole runs (two configurations, with and without a
  rule, two price scales). `Backtest` proves that the baseline replay agrees with
  the live machine unless a vote fires first, and that the live machine is never
  later than the replayed 3-of-4 candidate.
- **Rolling flow statistics.** `FlowStats` proves that the bounded deque agrees
  with the whole trade log, with its 32-bit counts and 128-bit sums.
- **The decode, dedupe and fanout pipeline.** `Dedupe` is the first-seen table,
  `Pipeline` the step system with its bounded queues, `PipelineSafety` what
  holds over every interleaving. `KolConfirm` with `Gmgn` is the smaller step
  system that routes the mined trades of followed wallets.
- **The budget book** of each followed wallet (`Budget`).
- **Accounting of the backtests:** take-profit ladders (`Ladder`),
  proportional mirror exits (`Mirror`), holder reconstruction (`Holders`).
- **Printing and framing:** amounts (`AmountFormat`), and the
  length-prefixed capture segments (`Framing`).

`dafny verify dfyconfig.toml` checks everything.

## How to read it

Code that updates state in place is a class or a method with a loop, proved
against a function of its inputs or of the old state; the theorems are lemmas
about those functions. Where a class has a `log`, it is a ghost record of
everything the object was fed, and `Valid()` ties the real fields to it.

Prices and ratios are `real`. Machine integers are unbounded with their wrapping
(as in a release build), saturation or clamping written out where the code has it;
sums that overflow are covered by the operations and excluded, with the condition
stated, only in lemmas that need exact sums. Clocks, RPC answers, logs, prices and the outcome of a
buy are parameters, so every theorem holds for any values of them.

## Where the code and its documentation differ

The model follows the code.

- The dedupe stage is described as emitting exactly one event per unique
  transaction (`crates/bsc-bus/src/dedupe.rs:1-3`). A hash seen again after its
  entry was swept is emitted again: `PipelineSafety.PublishedIff` says exactly when,
  and `PipelineSafety.PublishedTwice` is such a run.
- The crate documentation speaks of dropping the oldest transaction on overload
  (`crates/bsc-bus/src/lib.rs:15`); a full queue drops the incoming one.
- The flow figures are described as covering the last N blocks
  (`crates/bsc-runner/src/four_meme_price.rs:116`). They cover the last N
  blocks with a trade, however long ago; `FlowStats.ConsecutiveIff` says exactly when
  that is the same at the block at which they are read, and
  `FlowStats.IdleTokenIsStale` is a token for which it is not.
- The dump rule and the vote are both described as a ten-block velocity. The dump
  rule runs after the push, so its oldest price is nine ticks back; the vote runs
  before it, so there it is ten. Only ticks with a price are pushed, so either window
  may span more than ten blocks.
- The dump rule is described as firing before the trail gives back 30%
  (`crates/bsc-runner/src/trader/adaptive_trail.rs:277-280`). With a trail of at
  most 30% it never fires in a tick in which the trail would not
  (`TrailTheorems.DumpOnlyRelabels`). `TrailTheorems.DumpIsRedundantIff` gives the
  exact condition: it is also redundant with a hold cap of at most nine blocks,
  since ten prices take at least ten blocks.
- Confirmed exits are meant to close all books whatever the visibility
  (`crates/bsc-runner/src/kol_confirm.rs:422-424`). When the confirmer's own wallet
  index failed to load, unseen sells are not recognised;
  `KolConfirm.VisibilityIndependentIff` gives the exact condition.
- The live sink is described as receiving sells only
  (`crates/bsc-runner/src/kol_confirm.rs:98-102`). An unregistered buy goes to it as well;
  `KolConfirm.RoutesOnce` states the routing of the code.
- The early cohort is described as the first buyers
  (`scripts/analyze-d-microstructure-v2.py:260`). A buyer who already held the token is
  left out; `Holders.CohortIsFirstBuyersIff` gives the exact condition.
- The log queries are limited to 5000 blocks by a comment
  (`scripts/recompute-v3.py:63`); the inclusive chunks span 5001.
- An amount without decimals is printed without commas, all others with them.
- The thresholds in the header diagram of
  `crates/bsc-runner/src/trader/adaptive_trail.rs:8-18` are the defaults of the configuration.
- Without a fresh price the watcher checks only the timeout, as documented; the snipe loop
  repeats the last price and steps, and the repeated prices enter the ten-slot buffer.
  `Sniper.StaleIsHarmlessIff` and `Sniper.StaleMakesNoDifferenceIff` give the one exact
  condition under which such a tick can only time out, and under which no run ends
  differently; the default configuration meets it.

## Model

| member | source | states |
|---|---|---|
| TrailRule.MaxFromIsMax | crates/bsc-runner/src/trader/adaptive_trail.rs:229-232 | The from-scratch peak is an upper bound of entry and all prices and is one of them |
| TrailRule.FirstExit | crates/bsc-runner/src/trader/adaptive_trail.rs:440-535 | The first tick at which the rule over the whole history exits, and its reason: that tick decides it and no earlier tick decides anything |
| TrailMachine.PushHolds | crates/bsc-runner/src/trader/adaptive_trail.rs:236-242 | Overwriting the next slot keeps the buffer the last ten prices, each in its slot, zeroes in unwritten slots |
| TrailMachine.BufferIsWindow | crates/bsc-runner/src/trader/adaptive_trail.rs:282-283 | The maximum folded over the circular buffer is the maximum of the last ten prices (and zero), also before the buffer is full |
| TrailMachine.OldestIsNext | crates/bsc-runner/src/trader/adaptive_trail.rs:284-290 | In a full buffer the slot to be overwritten next holds the oldest of the last ten prices |
| TrailMachine.InitialRefines | crates/bsc-runner/src/trader/adaptive_trail.rs:690-698 | A fresh state says what an empty history says |
| TrailMachine.ObserveRefines | crates/bsc-runner/src/trader/adaptive_trail.rs:229-255 | One update keeps peak, arm flag, ratchet, buffer, count and write index equal to functions of the whole price history |
| TrailMachine.StepRefines | crates/bsc-runner/src/trader/adaptive_trail.rs:223-316 | One step of the constant-size machine makes the decision that the prioritised rule makes on the whole price history |
| TrailMachine.VoteRefines | crates/bsc-runner/src/trader/adaptive_trail.rs:540-578 | The vote read off the buffer before the push counts what the rule counts on the last ten earlier prices, so its oldest price is ten ticks back |
| TrailMachine.TrailState.constructor | crates/bsc-runner/src/trader/adaptive_trail.rs:137-150 | A state object holding exactly the given value, with a fresh buffer |
| TrailMachine.TrailState.HistoryMax | crates/bsc-runner/src/trader/adaptive_trail.rs:283 | The fold is the greatest buffered price or zero |
| TrailMachine.TrailState.Push | crates/bsc-runner/src/trader/adaptive_trail.rs:236-242 | One slot is replaced, the index advances modulo ten, the count stops at ten |
| TrailMachine.TrailState.Update | crates/bsc-runner/src/trader/adaptive_trail.rs:229-255 | The in-place update is the specified one |
| TrailMachine.TrailState.CheckExit | crates/bsc-runner/src/trader/adaptive_trail.rs:257-315 | The four exit checks in their priority, on the updated state |
| TrailMachine.TrailState.Step | crates/bsc-runner/src/trader/adaptive_trail.rs:223-316 | State and exit reason after one observation |
| TrailMachine.TrailState.ComputeVotes | crates/bsc-runner/src/trader/adaptive_trail.rs:540-578 | The number of signals that fire, or nothing when the window or the figures are missing |
| TrailWatcher.TickState | crates/bsc-runner/src/trader/adaptive_trail.rs:502-535 | A tick of a state that summarises some ticks decides what the rule decides on those ticks and this one: vote first, then the step; without a price only the timeout |
| TrailWatcher.FlowIsRaw | crates/bsc-runner/src/trader/adaptive_trail.rs:557-571 | For trades fed in block order and without overflow, the figures the vote reads are counts and net flow over the raw trades of the last three and ten active blocks |
| TrailWatcher.ReadFlow | crates/bsc-runner/src/trader/adaptive_trail.rs:558-563 | The three reads give the figures of the trades fed so far |
| TrailWatcher.StatsCache.constructor | crates/bsc-runner/src/four_meme_price.rs:139-141 | No token was traded |
| TrailWatcher.StatsCache.Ingest | crates/bsc-runner/src/four_meme_price.rs:222 | A trade is ingested into its token's deque, opened if there is none; every deque stays that of its whole feed |
| TrailWatcher.StatsCache.FlowFor | crates/bsc-runner/src/trader/adaptive_trail.rs:559-563 | Figures exactly for a token that was ever traded |
| TrailWatcher.AllFedMore | crates/bsc-runner/src/four_meme_price.rs:215-223 | Further trades leave valid what every tick was shown |
| TrailWatcher.VotedOnFeedIff | crates/bsc-runner/src/trader/adaptive_trail.rs:502-578 | A whole run ends in a vote if and only if its last tick brought a price, trades had been fed, ten earlier prices were there with a positive oldest, their peak had armed the position, and three of four inequalities held: price under 70% of one of the ten, price under 90% of the oldest, buys of three active blocks under 15% of those of ten, more than one BNB sold net in three |
| TrailWatcher.Watcher.constructor | crates/bsc-runner/src/trader/adaptive_trail.rs:361-369 | No token is tracked at first |
| TrailWatcher.Watcher.ProcessOne | crates/bsc-runner/src/trader/adaptive_trail.rs:440-535 | Every exit of a tracked token is the first exit the from-scratch rule gives for everything the token was shown, flow figures of the feed included; other tokens are untouched; nothing happens to an entry that is not ready or has no ledger row |
| TrailWatcher.Watcher.ProcessFed | crates/bsc-runner/src/trader/adaptive_trail.rs:440-535 | The same for any way of reading figures off a feed, every record staying tied to its feed |
| TrailWatcher.Watcher.ProcessTick | crates/bsc-runner/src/trader/adaptive_trail.rs:453-535 | Registration if needed, then the tick |
| TrailWatcher.Watcher.Register | crates/bsc-runner/src/trader/adaptive_trail.rs:453-471 | First sight stores the initial state of the ledger position |
| TrailWatcher.Watcher.TickOne | crates/bsc-runner/src/trader/adaptive_trail.rs:472-535 | The copied-out state is written back on a hold and removed on an exit, and stays a summary of all ticks |
| TrailTheorems.FarBelowMeans | crates/bsc-runner/src/trader/adaptive_trail.rs:292-296 | The distance test, division removed: the price is under 70% of a positive maximum, both ways |
| TrailTheorems.FallingMeans | crates/bsc-runner/src/trader/adaptive_trail.rs:293-296 | The velocity test, divisions removed: the price is under 90% of a positive oldest price, both ways |
| TrailTheorems.BuyCollapseMeans | crates/bsc-runner/src/trader/adaptive_trail.rs:566-568 | The rate test, divisions removed: there are buys in ten blocks and 20 times those of three are under 3 times those of ten, both ways |
| TrailTheorems.NetSellingMeans | crates/bsc-runner/src/trader/adaptive_trail.rs:569-576 | The flow test in wei: under minus 10^18, both ways |
| TrailTheorems.VoteMeans | crates/bsc-runner/src/trader/adaptive_trail.rs:512-578 | The vote fires if and only if armed before this price, on ten prices with a positive oldest, with three of the four inequalities |
| TrailTheorems.DecisionMeans | crates/bsc-runner/src/trader/adaptive_trail.rs:244-315 | Each of the five reasons of a step if and only if its inequality over prices, peak and configuration holds and no earlier rule does |
| TrailTheorems.TighterArms | crates/bsc-runner/src/trader/adaptive_trail.rs:244-255 | Simulation between two configurations: what is armed or ratcheted under the looser is so under the tighter |
| TrailTheorems.TighterFloors | crates/bsc-runner/src/trader/adaptive_trail.rs:257-306 | Every floor of the tighter configuration is at least as high |
| TrailTheorems.TighterExitsNoLater | crates/bsc-runner/src/trader/adaptive_trail.rs:223-316 | On every tick sequence a configuration with tighter knobs exits no later, with the vote in front and with or without the leading exit |
| TrailTheorems.DumpIsFarBelowPeak | crates/bsc-runner/src/trader/adaptive_trail.rs:281-299 | A price that fires the leading exit is under 70% of the peak |
| TrailTheorems.DumpOnlyRelabels | crates/bsc-runner/src/trader/adaptive_trail.rs:277-308 | With a trail of at most 30% deleting the leading exit keeps the exit tick of every run and only turns its label into trail |
| TrailTheorems.DropMovesExit | crates/bsc-runner/src/trader/adaptive_trail.rs:277-300 | With a wider trail and a hold cap above nine, ten ticks in consecutive blocks exit with the rule and are held without it |
| TrailTheorems.DumpIsRedundantIff | crates/bsc-runner/src/trader/adaptive_trail.rs:277-313 | Over ticks in block order from the opening block, the leading exit moves no exit of any run if and only if the trail is at most 30% or the hold cap is at most nine blocks |
| TrailTheorems.LockLevels | crates/bsc-runner/src/trader/adaptive_trail.rs:244-266 | Under the profit-lock condition armed implies ratcheted and the locked floor is the effective one |
| TrailTheorems.ExitsLockProfit | crates/bsc-runner/src/trader/adaptive_trail.rs:244-308 | Over whole runs: trail and dump exits are above the locked price, a hard stop ends only runs that never reached the ratchet level, a break-even exit only runs that did |
| TrailTheorems.HeldIsAboveFloors | crates/bsc-runner/src/trader/adaptive_trail.rs:257-308 | While a position is held its last price is above the effective floor and, once armed, above the trail floor |
| TrailScale.ObserveScales | crates/bsc-runner/src/trader/adaptive_trail.rs:229-255 | Scaling entry and price commutes with the update of any state |
| TrailScale.CheckScales | crates/bsc-runner/src/trader/adaptive_trail.rs:257-315 | The exit checks of any state do not depend on the price scale |
| TrailScale.VotesScale | crates/bsc-runner/src/trader/adaptive_trail.rs:540-578 | Neither does the vote |
| TrailScale.RunsScale | crates/bsc-runner/src/trader/adaptive_trail.rs:678-683 | Multiplying entry and all prices by one positive factor keeps exit tick and reason of every run, so the unit of the price proxy is irrelevant |
| Backtest.BaselineMeans | scripts/analyze-exit-candidates.py:37-40 | The baseline in numerals: stop at 70% of the entry, at 105% once the peak reached 115%, armed from 130%, trail at 70% of the peak |
| Backtest.BaselineOutcome | scripts/analyze-exit-candidates.py:80-95 | Whatever flow figures the live machine has, it exits at the first point at which the baseline rule fires and for the same reason, unless a vote fires there or before |
| Backtest.ReplayLive | scripts/analyze-exit-candidates.py:45-95 | The loop stops at the first point of the baseline rule; on every path shorter than the hold cap and for all flow figures the live machine exits there for the same reason, signal_dump counted as trail, or by the first vote if one fires by then |
| Backtest.ObservePoint | scripts/analyze-exit-candidates.py:86-89 | Peak, armed and ratcheted after one more point are the thresholds on the whole path so far |
| Backtest.DistanceIsTrail | scripts/analyze-exit-candidates.py:175-178 | A price 30% under the recent maximum is at the trail of the live configuration |
| Backtest.OtherVotesFire | scripts/analyze-exit-candidates.py:179-201 | Three votes without the distance one make the live vote fire |
| Backtest.CountVotes | scripts/analyze-exit-candidates.py:175-200 | The number of the candidate's signals, with its guards for the first points |
| Backtest.VotingMeans | scripts/analyze-exit-candidates.py:165-202 | The candidate in numerals: the stops of the baseline, then the votes once the peak reached 130% of the entry |
| Backtest.VotesInMean | scripts/analyze-exit-candidates.py:175-200 | That number as four inequalities over the path |
| Backtest.FiguresMean | scripts/analyze-exit-candidates.py:75-76 | The sums behind them, point by point |
| Backtest.ReplayVoting | scripts/analyze-exit-candidates.py:153-203 | The loop stops at the first point at which floor or vote rule fires; from three votes on the live machine fed the same figures exits no later, whatever its hold cap |
| Backtest.LiveIsNoLaterIff | scripts/analyze-exit-candidates.py:153-203 | The live machine is never later than the candidate if and only if the candidate asks for at least three votes; with fewer, ten blocks at the top show it |
| Sniper.SnipePosition.constructor | crates/bsc-runner/src/dev_sniper.rs:553-560 | A new position waits for its first price |
| Sniper.SnipePosition.Process | crates/bsc-runner/src/dev_sniper.rs:279-384 | One tick of a position: wait, evict as dead, capture the entry, or step on the fresh or the repeated price |
| Sniper.SniperBook.constructor | crates/bsc-runner/src/dev_sniper.rs:423-431 | No positions at first |
| Sniper.SniperBook.OnLaunch | crates/bsc-runner/src/dev_sniper.rs:472-563 | A position is inserted exactly for a whitelisted creator with a size and a successful buy when the token is not held; a held position is never replaced |
| Sniper.SniperBook.ProcessPosition | crates/bsc-runner/src/dev_sniper.rs:279-384 | A position leaves the map in exactly the tick that ends it, all others keep their state |
| Sniper.StaysYoung | crates/bsc-runner/src/dev_sniper.rs:307-362 | The invariant behind the lifetime bound: age limits of waiting and of tracked positions after every tick |
| Sniper.LifetimeBound | crates/bsc-runner/src/dev_sniper.rs:307-362 | Ticked every block, a position is gone at most max(2, 2 max_hold - 1) blocks after its opening, hence within twice a hold cap of at least one |
| Sniper.LifetimeBoundIsTight | crates/bsc-runner/src/dev_sniper.rs:310-362 | For every hold cap a run meets that bound exactly |
| Sniper.StaleOnlyTimesOut | crates/bsc-runner/src/dev_sniper.rs:353-354 | Repeating the last price of a held state exits by timeout when overdue and otherwise not at all |
| Sniper.FirstPriceHeld | crates/bsc-runner/src/dev_sniper.rs:330-351 | The first price of a waiting position is its entry, peak and last price, and its clock starts at the opening or the block before |
| Sniper.HeldNext | crates/bsc-runner/src/dev_sniper.rs:352-362 | A tick that does not end a tracked position leaves its history known and its last price above the floors |
| Sniper.StaleTickOnlyTimesOut | crates/bsc-runner/src/dev_sniper.rs:353-354 | After every run, the next tick without a fresh price ends the position only as dead token or timeout |
| Sniper.StaleIsHarmlessIff | crates/bsc-runner/src/dev_sniper.rs:353-354 | That holds of all runs if and only if the hard stop is above zero, the ratchet is above the entry or its lock below, the arm or the trail is above zero, and the trail is at most 30% or the hold cap at most nine blocks |
| Sniper.KeepsPace | crates/bsc-runner/src/dev_sniper.rs:353-362 | Under that condition a run and the run that skips its repeated prices stay alike: same peak, same last price, same end, a leading exit counting as a trail exit |
| Sniper.ImpatientRun | crates/bsc-runner/src/dev_sniper.rs:353-362 | For every configuration that misses the condition, a run that a silent tick ends early |
| Sniper.StaleMakesNoDifferenceIff | crates/bsc-runner/src/dev_sniper.rs:353-362 | Stepping on the repeated price ends every run in the block and for the reason that only checking the timeout would, signal_dump counted as trail, if and only if the same condition holds |
| FlowStats.RunsAreMaximal | crates/bsc-runner/src/four_meme_price.rs:95-106 | The runs rebuild the log, each lies in one block, neighbours in different blocks |
| FlowStats.TokenStats.constructor | crates/bsc-runner/src/four_meme_price.rs:89-92 | Empty deque for an empty log |
| FlowStats.TokenStats.Ingest | crates/bsc-runner/src/four_meme_price.rs:95-115 | The deque stays the summaries of the last ten maximal runs of the whole log, and never holds more than ten |
| FlowStats.Overflows | crates/bsc-runner/src/four_meme_price.rs:107-127 | Counts wrap at 2^32, sums stop at 2^128 - 1, net flows are reduced into the signed 128-bit range |
| FlowStats.TokenStats.Push | crates/bsc-runner/src/four_meme_price.rs:95-115 | What one trade does to the deque, trimming included |
| FlowStats.TokenStats.TrimFront | crates/bsc-runner/src/four_meme_price.rs:103-105 | Popping from the front leaves the last ten |
| FlowStats.TokenStats.AddToLast | crates/bsc-runner/src/four_meme_price.rs:107-114 | Only the last summary changes: wrapping count, saturating sum |
| FlowStats.TokenStats.CountLast | crates/bsc-runner/src/four_meme_price.rs:116-122 | The wrapping sum of the counts of the last n summaries |
| FlowStats.TokenStats.NetFlowLast | crates/bsc-runner/src/four_meme_price.rs:123-127 | The wrapping signed sum of bought minus sold of the last n summaries |
| FlowStats.WindowBump | crates/bsc-runner/src/four_meme_price.rs:101-106 | Keeping only the last ten commutes with taking in a trade |
| FlowStats.IngestRuns | crates/bsc-runner/src/four_meme_price.rs:95-115 | One more trade extends the last summary or opens one, as it does for the runs of the log |
| FlowStats.CountsAddUp | crates/bsc-runner/src/four_meme_price.rs:116-122 | Without overflow the summed counts of the summaries are the count over the raw trades |
| FlowStats.FlowAddsUp | crates/bsc-runner/src/four_meme_price.rs:123-127 | Without overflow the summed flow is bought minus sold over the raw trades |
| FlowStats.FiguresOverRuns | crates/bsc-runner/src/four_meme_price.rs:116-127 | Whatever the feed, the figures are sums over the raw trades of the last n runs |
| FlowStats.LastRunsAreLastBlocks | crates/bsc-runner/src/four_meme_price.rs:85-106 | For feeds in block order the last n runs are the trades of the last n active blocks |
| FlowStats.FiguresOverBlocks | crates/bsc-runner/src/four_meme_price.rs:116-127 | For feeds in block order the figures are sums over all trades of the last n active blocks and the deque is strictly increasing |
| FlowStats.ConsecutiveIff | crates/bsc-runner/src/four_meme_price.rs:116 | Read at any block, the figures cover the last n block numbers up to it if and only if no trade is newer and the n-th summary from the end is less than n blocks old |
| FlowStats.IdleTokenIsStale | crates/bsc-runner/src/four_meme_price.rs:116-119 | Three buys four hundred blocks ago are still the buys of the last three blocks |
| Dedupe.Table.constructor | crates/bsc-bus/src/dedupe.rs:29-34 | Empty table; the TTL in nanoseconds saturates |
| Dedupe.Table.Record | crates/bsc-bus/src/dedupe.rs:36-54 | Fresh exactly when the hash has no entry, and then the expiry is the receive time plus the TTL, or the largest word if that does not fit; a duplicate appends its source and changes neither first time nor expiry; other entries stay |
| PipelineSafety.FirstSeenIsPublishTime | crates/bsc-bus/src/dedupe.rs:56-59 | The read side is told the time of the last publish of a hash until a sweep forgets it, and nothing otherwise; duplicates never change the answer |
| Dedupe.Table.Sweep | crates/bsc-bus/src/dedupe.rs:66-70 | Exactly the entries whose expiry is before now are dropped, and the result is how many |
| Dedupe.SweepByShards | crates/bsc-bus/src/dedupe.rs:66-70 | Sweeping shard by shard gives the table that sweeping at once gives |
| Pipeline.HeldFill | crates/bsc-bus/src/pipeline.rs:132-142 | A worker that decodes adds one transaction to those in workers |
| Pipeline.StepConserves | crates/bsc-bus/src/pipeline.rs:122-215 | Every step keeps each accepted transaction in exactly one place |
| Pipeline.RunsConserve | crates/bsc-bus/src/pipeline.rs:122-215 | So does every interleaving: accepted = raw queue + workers + decoded queue + published + duplicates + failures, as multisets |
| PipelineSafety.StepExplains | crates/bsc-bus/src/pipeline.rs:152-215 | After every step the entry of a hash is what its last publish and later duplicates account for, and is missing only if a sweep forgot it |
| PipelineSafety.StepSafe | crates/bsc-bus/src/pipeline.rs:152-215 | Every step keeps that and the separation of publishes |
| PipelineSafety.PipelineIsSafe | crates/bsc-bus/src/pipeline.rs:60-215 | From an empty pipeline, over every interleaving: conservation, explained table, and two publishes of one hash have between them a sweep of it at a time greater than the receive time of the first plus the TTL |
| PipelineSafety.EntrySurvives | crates/bsc-bus/src/dedupe.rs:66-70 | An entry survives unchanged every sweep up to the receive time of its publish plus the TTL, and all sweeps if that sum does not fit the clock |
| Pipeline.OfferIff | crates/bsc-bus/src/pipeline.rs:64-65 | A transaction is accepted if and only if the raw queue has room |
| Pipeline.QueuesFromEmpty | crates/bsc-bus/src/pipeline.rs:60-215 | Over every interleaving neither queue exceeds its capacity and both are first in, first out |
| PipelineSafety.PublishedIff | crates/bsc-bus/src/dedupe.rs:1-8 | The next transaction is published if and only if every earlier publish of its hash has been forgotten; one event per unique transaction holds up to the TTL |
| PipelineSafety.PublishedTwice | crates/bsc-bus/src/dedupe.rs:1-8 | A run from the empty pipeline that publishes one hash twice: through, swept after the expiry, through again |
| PipelineSafety.RepublishedIff | crates/bsc-bus/src/dedupe.rs:36-70 | Some run publishes a transaction and its hash again if and only if its expiry is below the largest clock value |
| PipelineSafety.StepsPay | crates/bsc-bus/src/pipeline.rs:122-197 | Each internal step lowers the weighted queue measure, the janitor leaves it |
| PipelineSafety.SomethingToDo | crates/bsc-bus/src/pipeline.rs:122-197 | No deadlock: while anything is in flight an internal step is enabled |
| PipelineSafety.DrainBound | crates/bsc-bus/src/pipeline.rs:122-197 | Without new input a run takes no more internal steps than the measure of its start |
| PipelineSafety.DrainedIsSettled | crates/bsc-bus/src/pipeline.rs:122-197 | When no internal step is left everything accepted was published, a duplicate or undecodable |
| Gmgn.FirstToken | crates/bsc-runner/src/gmgn.rs:67-86 | A token is found if and only if some word from the start position on is a token word |
| Gmgn.DecodesFirst | crates/bsc-runner/src/gmgn.rs:67-86 | The token found is that of the first token word |
| Gmgn.DecodeMeans | crates/bsc-runner/src/gmgn.rs:54-94 | A call decodes if and only if it has the four selector bytes and a token word: twelve zero bytes, an address not small and neither of the two fixed ones; it is the first such word, and the side is buy if and only if value is attached |
| Gmgn.DecodeCall | crates/bsc-runner/src/gmgn.rs:63-94 | The scan with its early exits returns what the definition says: selector, first token word, side by value |
| KolConfirm.Confirmer.constructor | crates/bsc-runner/src/kol_confirm.rs:61-66 | Nothing registered, nothing offered |
| KolConfirm.Confirmer.ProcessPending | crates/bsc-runner/src/kol_watch.rs:411-437 | A first sight registers exactly decoded trades of watched wallets, with decoded side and token |
| KolConfirm.Confirmer.SweepExpired | crates/bsc-runner/src/kol_confirm.rs:219-229 | Exactly the entries younger than 300 seconds stay |
| KolConfirm.Confirmer.ProcessTx | crates/bsc-runner/src/kol_confirm.rs:354-494 | One mined transaction: registry entry removed, sinks offered as routed |
| KolConfirm.Confirmer.ProcessBlock | crates/bsc-runner/src/kol_confirm.rs:354-494 | A block is its transactions in order |
| KolConfirm.RoutesOnce | crates/bsc-runner/src/kol_confirm.rs:417-492 | A sell that is registered or of a known wallet goes once to each of the three sinks, a registered buy to none, an unregistered buy of a known wallet to the private and live sinks only, anything else nowhere |
| KolConfirm.RegistryIsHistory | crates/bsc-runner/src/kol_confirm.rs:219-234 | A hash is registered exactly when its latest first sight as a decoded trade of a watched wallet was neither swept nor mined since |
| KolConfirm.RunsRoute | crates/bsc-runner/src/kol_confirm.rs:354-494 | Over every interleaving of first sights, sweeps and blocks, and for any two wallet indexes, each sink is offered exactly the decoded sells mined while registered or by a wallet the confirmer knows, once each, in mining order, and the registry holds decoded trades |
| KolConfirm.NoticedIsMined | crates/bsc-runner/src/kol_confirm.rs:417-424 | If the confirmer knows every watched wallet these are all mined decoded sells of known wallets |
| KolConfirm.UnknownToConfirmer | crates/bsc-runner/src/kol_confirm.rs:106-115 | A wallet only the mempool watcher knows gives two runs that differ in a first sight and in what the sinks are offered |
| KolConfirm.VisibilityIndependentIff | crates/bsc-runner/src/kol_confirm.rs:422-424 | What each of the three sinks is offered to exit on is independent of what was seen pending if and only if the confirmer knows every wallet the watcher knows |
| Budget.Book.constructor | crates/bsc-runner/src/trader/kol_budget.rs:68-85 | The loaded records, unchanged |
| Budget.Book.TryReserve | crates/bsc-runner/src/trader/kol_budget.rs:90-108 | The amount w satisfies 10000 w <= bps * cash < 10000 (w + 1), the product stopping at the largest word, and the attempt is refused if and only if that product is under 10000 dust; w moves from cash to commitments; no other record changes |
| Budget.Book.CreditClose | crates/bsc-runner/src/trader/kol_budget.rs:112-131 | What came back joins the cash, what was put in leaves the commitments, the difference is realised, each stopping at the bounds of its word; a missing record stays missing |
| Budget.WantWithinCash | crates/bsc-runner/src/trader/kol_budget.rs:95-97 | A fraction of at most 10000 basis points never exceeds the cash |
| Budget.StepBalances | crates/bsc-runner/src/trader/kol_budget.rs:90-131 | A reservation or a matched close keeps cash + committed = initial + realised and committed = outstanding reservations |
| Budget.RunsBalance | crates/bsc-runner/src/trader/kol_budget.rs:90-131 | So does every run in which pot and proceeds fit a signed word, and then nothing saturates |
| Budget.RunsRealise | crates/bsc-runner/src/trader/kol_budget.rs:122-129 | The realised profit of such a run is what came back less what the settled reservations had put in |
| Budget.ReachableBalances | crates/bsc-runner/src/trader/kol_budget.rs:47-51 | The reported equity of every reachable record is the initial pot plus the realised profit |
| Budget.ReserveConservesIff | crates/bsc-runner/src/trader/kol_budget.rs:103-104 | A reservation conserves cash plus committed if and only if it does not exceed the cash |
| Budget.CashDecay | crates/bsc-runner/src/trader/kol_budget.rs:95-105 | After k attempts cash * 10000^k is at least the starting cash * (10000 - bps)^k |
| Budget.AtMostCashOverDust | crates/bsc-runner/src/trader/kol_budget.rs:98-105 | Straight reservations succeed at most cash / dust times |
| Budget.RefusalPersists | crates/bsc-runner/src/trader/kol_budget.rs:98-102 | After a refusal every further attempt is refused and changes only the skip counter |
| Framing.LeRoundTrip | crates/bsc-telemetry/src/capture.rs:155 | A 32-bit length comes back from its little-endian bytes |
| Framing.LowestByteFirst | crates/bsc-telemetry/src/capture.rs:155 | The length prefix has its lowest byte first |
| Framing.FrameIs | crates/bsc-telemetry/src/capture.rs:165-166 | A frame is four bytes and the payload; the prefix of a longer payload is all ones |
| Framing.FrameRoundTripIff | crates/bsc-telemetry/src/capture.rs:155 | A payload comes back from its frame if and only if it has at most 2^32 - 1 bytes; the capped prefix loses longer ones |
| Framing.DrainFrames | crates/bsc-telemetry/src/replay.rs:65-98 | Reading after some whole frames gives their records and then whatever follows |
| Framing.SegmentRoundTrip | crates/bsc-telemetry/src/replay.rs:65-98 | Reading a written segment gives its records in order and a clean end |
| Framing.DrainUndecodable | crates/bsc-telemetry/src/replay.rs:81-82 | Whole frames followed by one that does not decode: the records before it, then the decoding error, whatever follows |
| Framing.CutSegment | crates/bsc-telemetry/src/replay.rs:65-80 | A segment cut at any byte gives exactly the whole records before the cut, then a clean end at a boundary or inside a prefix, and a truncated payload otherwise |
| Framing.CaptureWriter.constructor | crates/bsc-telemetry/src/capture.rs:108-115 | One open empty segment, due after the rotation period |
| Framing.CaptureWriter.WriteRecord | crates/bsc-telemetry/src/capture.rs:152-173 | The record is appended after everything written so far, in a new segment if the old one was due |
| Framing.CaptureWriter.Append | crates/bsc-telemetry/src/capture.rs:165-168 | The current segment grows by one frame, the byte count with it |
| Framing.CaptureWriter.Rotate | crates/bsc-telemetry/src/capture.rs:158-163 | The current segment is finished as it is and an empty one begins |
| Framing.ReplayReader.constructor | crates/bsc-telemetry/src/replay.rs:55-62 | At the start of the segment, index zero |
| Framing.ReplayReader.NextRecord | crates/bsc-telemetry/src/replay.rs:65-89 | The next record with its index, end of file, or the error with the current index, as the bytes left dictate |
| Framing.ReplayReader.ReadAll | crates/bsc-telemetry/src/replay.rs:92-98 | All records with indices from zero, or the error and nothing else |
| Framing.SegmentsRoundTrip | crates/bsc-telemetry/src/replay.rs:92-98 | Reading written segments in order gives the written records in order |
| Framing.WrittenIsRead | crates/bsc-telemetry/src/capture.rs:152-173 | Whatever a writer wrote with whatever rotations is what reading its segments in order gives |
| AmountFormat.DecimalRoundTrip | crates/bsc-runner/src/token_resolver.rs:155 | The decimal string of a number denotes it |
| AmountFormat.Thousands | crates/bsc-runner/src/token_resolver.rs:191-202 | The loop produces groups of three from the right |
| AmountFormat.GroupedStrips | crates/bsc-runner/src/token_resolver.rs:191-202 | Stripping the commas of a grouped string is the identity |
| AmountFormat.GroupedCommas | crates/bsc-runner/src/token_resolver.rs:194-198 | Counted from the right every fourth character is a comma and no other is |
| AmountFormat.PartsMean | crates/bsc-runner/src/token_resolver.rs:160-166 | The whole part is the decimal quotient by 10^dec without leading zeroes, the fraction the remainder with all its digits |
| AmountFormat.FormatMeans | crates/bsc-runner/src/token_resolver.rs:151-189 | The rendering is the quotient in groups of three and up to 0, 1, 3 or 6 digits of the remainder, from a million, a thousand, one on and below; all allowed digits, or fewer with nothing lost and no zero at the end |
| AmountFormat.AmountIsTruncation | crates/bsc-runner/src/token_resolver.rs:151-189 | Read back without commas, v <= raw / 10^dec < v + e, with e = 1 from a million on, 1/10 from a thousand on, 1/1000 from one on, and 10^-6 below |
| AmountFormat.PlainAmounts | crates/bsc-runner/src/token_resolver.rs:152-159 | A zero amount and an amount without decimals read back exactly |
| Ladder.SoldAtMostAll | scripts/analyze-d-trades.py:409-415 | The slices are nonnegative and add up to at most the position |
| Ladder.WorthBetween | scripts/analyze-d-trades.py:409-414 | What the slices brought lies between the extremes of the visited prices |
| Ladder.SellRung | scripts/analyze-d-trades.py:411-415 | A rung reached for the first time sells its fraction or what is left, once |
| Ladder.TakeRungs | scripts/analyze-d-trades.py:409-417 | Every rung the price reaches first is sold in this tick, in order, unless nothing is left |
| Ladder.SlicesMean | scripts/analyze-d-trades.py:409-415 | The slices of an ending, over prices: in order of tick and rung, each at the first price at or above its level, its fraction or what was left, none in the tick of a stop |
| Ladder.NoneMissing | scripts/analyze-d-trades.py:409-417 | No rung that a price reached is missing, except in the tick of a stop or of a full ladder |
| Ladder.EndingMeans | scripts/analyze-d-trades.py:405-457 | The ending over prices: no stop and no trail before it, the stop if and only if the last price is at or under it, a full ladder if and only if at most 1e-9 is left |
| Ladder.TrailsMeans | scripts/analyze-d-trades.py:434-451 | The trail over prices: the peak reached the arm level and the price is back by the trail |
| Ladder.RealisedMeans | scripts/analyze-d-trades.py:407-421 | The return is the sum of slice times price over entry, and what is left at the last price |
| Ladder.HybridTick | scripts/analyze-d-trades.py:433-453 | One tick: stop, rungs, trail, empty check |
| Ladder.ReturnBetween | scripts/analyze-d-trades.py:398-457 | The realised return is between lowest and highest visited price ratio, up to the 1e-9 a full ladder leaves unsold |
| Ladder.ReplayMultistep | scripts/analyze-d-trades.py:398-421 | How the plain ladder ends, with which slices, and that the returned value is their worth plus the rest at the last price |
| Ladder.ReplayHybrid | scripts/analyze-d-trades.py:424-457 | The same for the ladder with a trail: stop before rungs, rungs before trail, trail before the empty check |
| Ladder.Replay | scripts/analyze-d-trades.py:356-373 | The plain trail ends as the hybrid with no rungs, at the ratio of its exit price |
| Mirror.ChunkRange | scripts/recompute-v3.py:272-285 | The chunks run end to end over the range, each but the last 5001 blocks long |
| Mirror.ChunkSizes | scripts/recompute-v3.py:274 | Every query but the last spans 5001 blocks, none more |
| Mirror.EachBlockOnce | scripts/recompute-v3.py:272-285 | A block is queried if and only if it is in the range, and by one chunk only |
| Mirror.MergeLegs | scripts/recompute-v3.py:286-303 | One sale a transaction, holding the sum of its legs and the block of its first, for exactly the transactions logged, and the total is preserved |
| Mirror.MergeAdd | scripts/recompute-v3.py:293-295 | Another leg of a known transaction keeps that |
| Mirror.MergeNew | scripts/recompute-v3.py:296-302 | So does the first leg of a new one |
| Mirror.MirrorSales | scripts/recompute-v3.py:376-431 | One fill for each sale that has something left to copy; stopping at the total loses none |
| Mirror.SalesAreCopied | scripts/recompute-v3.py:380-431 | One fill, in order, for each sale of something before the total was sold: what of it was left, our tokens in proportion, the market cap at its price, and the price by the pool, else the median, else the wallet, else our entry |
| Mirror.MirrorExits | scripts/recompute-v3.py:376-461 | That for all sales, a forced close of the rest at the pool's price, else the last fill's, else our entry, exactly when something is left, and the BNB returned as the sum of tokens times price |
| Mirror.PositionIsConserved | scripts/recompute-v3.py:376-461 | The fills account for all of the wallet's tokens and all of ours, force-close included, each in proportion |
| Mirror.Resolve | scripts/recompute-v3.py:367-461 | Nothing for a row without entry price or tokens; otherwise fills priced as above that dispose of exactly what the stake bought and what the wallet had, their tokens times price as the return, with a forced close exactly when the wallet sold less than it had |
| Mirror.AverageMeans | scripts/recompute-v3.py:471-474 | The average times the tokens sold is the sum of market cap times tokens over the fills, zero without any sold |
| Mirror.AverageBetween | scripts/recompute-v3.py:471-474 | The average exit market cap is between the lowest and the highest of the fills |
| Holders.EarlyBuyersDistinct | scripts/analyze-d-microstructure-v2.py:275-277 | The cohort has at most twenty distinct addresses, none excluded |
| Holders.CohortIsFirstBuyersIff | scripts/analyze-d-microstructure-v2.py:260-277 | At every moment the cohort is the first twenty distinct buyers if and only if every new buyer, while there is room, was no holder before and is one after |
| Holders.CohortMissesHolders | scripts/analyze-d-microstructure-v2.py:272-277 | A buyer who was sent tokens first is missing from the cohort |
| Holders.Walk.constructor | scripts/analyze-d-microstructure-v2.py:248-261 | Nobody holds anything; the launchpad and the zero address are excluded |
| Holders.Walk.Debit | scripts/analyze-d-microstructure-v2.py:266-269 | Balances and index agree after the debit |
| Holders.Walk.Credit | scripts/analyze-d-microstructure-v2.py:270-273 | And after the credit, which says whether the receiver became a holder |
| Holders.Walk.Apply | scripts/analyze-d-microstructure-v2.py:264-277 | After any transfer, self-transfers included, the index is exactly the addresses with positive net received amount, balances are those amounts, and the cohort is as specified |
| Holders.Walk.ApplyBlock | scripts/analyze-d-microstructure-v2.py:263-277 | So after all transfers of a block |
| Holders.Walk.TopAmounts | scripts/analyze-d-microstructure-v2.py:281-283 | The sums over the ten first and over all ranked holders |
| Holders.Walk.CountEarly | scripts/analyze-d-microstructure-v2.py:288 | How many of the cohort are holders now |
| Holders.RankedArePositive | scripts/analyze-d-microstructure-v2.py:266-273 | Every holder of a valid walk has a positive net amount |
| Holders.Walk.Snapshot | scripts/analyze-d-microstructure-v2.py:278-294 | The figures of a block: the share is zero without holders, else in (0, 1], and one if and only if at most ten hold; the amount behind it is the most any ten or fewer holders have; the remaining cohort is the number of its members that hold, at most the cohort, at most 20 |
| Holders.FirstAreLargest | scripts/analyze-d-microstructure-v2.py:282-283 | No choice of ranked addresses is worth more than as many of the first |
| Holders.TopTenIsMaximal | scripts/analyze-d-microstructure-v2.py:282-283 | The top-ten amount is the most that any ten or fewer holders hold together |
| Holders.ShareRange | scripts/analyze-d-microstructure-v2.py:279-286 | The share is zero without holders, else in (0, 1], and one if and only if there are at most ten |

## Left out

- Floating point: prices are real numbers, so rounding, infinities and NaN are not modelled.
- Transaction sources, RPC clients, Telegram, metrics, logging, configuration and command line: plumbing; what they deliver are parameters.
- The live executor: an exit removes the position from the trail map whether or not the broadcast succeeded, as the code does; that the next block would initialise it again from the ledger is visible only as a new record.
- Parallel ticks: the positions of one block are processed one after the other; each touches only its own entry.
- The last observed block of a trail state is updated but not part of what is proved about it, since only the price query reads it.
- Where the price of a tick comes from (cache, pool quote, log scan) and how old it may be.
- Token extraction from a launch event, trade sizing and the buy: booleans given to the launch handler; two launches of one token racing between the guard and the insertion are not modelled.
- Shutdown of the pipeline and of the watchers, and subscribers that lag behind the broadcast.
- Block context stamped on published transactions, and the block number and timings a registration carries.
- RLP decoding and signer recovery: a flag on the transaction.
- I/O errors, compression and the record codec: the codec is any pair of inverse functions, and a failed write is not modelled.
- Retention and deletion of capture segments.
- The capacity of the sinks of the confirm watcher: what is proved is what they are offered; a sink that is off or full drops it, as the code does.
- The dispatch of a pending hit to its own sinks and the text it renders.
- Followed wallets are an address map; their groups, names and file format are not modelled.
- Counters and timestamps of the budget book other than trades taken and skipped, and its file.
- Sorting: logs, sales and ranked holders are taken as sorted, with the order stated where a proof needs it.
- The index in the label of a full ladder (`tp1_full`, `tp2_full`).
- The wallet's own exit prices and market caps in the mirror report; only our side is modelled.
- Counting followed wallets among holders and aggregating the trade tape in the microstructure scan.
- A trade feed that is out of block order: the deque is still the last ten runs, and its figures are covered by `FlowStats.FiguresOverRuns` only.
- The other candidate strategies and report scripts, apart from the baseline and the voting one: they repeat the loops modelled here or print statistics.
