# crypto-trader: verified models

Dafny models of the parts of a crypto trading system whose correctness rests on state
and arithmetic, with proofs. Prices, quantities and money are exact reals; clocks are
integers. Each imperative part of the system is an imperative method here, proved
against a function, and the properties are proved about the function.

- **Market structure** (`Candles`, `MarketStructure`, `StructureScanner`,
  `StructureTheorems`, `NoLookAhead`, `StructureReport`). The scanner confirms swings
  late, breaks them, tags BOS and CHoCH from a running bias, anchors order blocks and
  flips mitigation flags in place. It is proved equal to a declarative ledger; the
  geometry, the tags and the absence of look-ahead follow for every series. Where candles
  must be well formed (low <= open, close <= high) the theorem says so; the refinement
  needs no such condition.
- **Funding arbitrage** (`DecimalText`, `ArbRecords`, `ArbProtocol`, `FundingArb`,
  `ArbSafety`, `ArbCarry`, `ArbFunding`, `ArbReasons`, `ArbFleet`). A two-leg protocol over two venues where any order may fail,
  with rollback, HALT and a persisted book that shares its records with the manager. Every reply of the world in a
  tick is a parameter (`Replies`; `None` is a call that raises), so the theorems hold for
  every pattern of failures. Runs mix ticks, HALT switches and restarts.
- **Backtests** (`Replay`, `Engines`, `ReplayTheorems`, `EngineBounds`, `EntryRules`,
  `EngineTheorems`, `FrameTheorems`, `MacroFrames`). The four engines are four entry rules over one scan-and-exit loop.
  `evaluate` and the indicators are arbitrary functions of what the engine hands them.
- **Risk and sizing** (`RiskGate`, `RiskManagement`, `RiskRuns`, `RiskHistory`, `RiskOverruns`,
  `DynamicLeverage`, `LotSizing`, `Drawdown`). The shared manager under every interleaving of N engines'
  atomic calls, with midnights and restarts; leverage scaling with half-even rounding;
  the bump-to-minimum loop with its termination; drawdown and the chronological split.
- **Wallet and shadow** (`WalletRules`, `Wallet`, `Shadow`). The simulated wallet's
  ledger over any series of price updates, and the shadow evaluator's semaphore protocol
  over all interleavings.

## Where the code falls short

Each of these is proved, with the exact condition or a concrete input.

- Resuming a rollback whose buy-back failed sells a spot leg that was never bought, since
  `_rollback_perp` reuses UNWINDING_PERP (`ArbSafety.TickMatches`, `RunMatches`,
  `FailedRollbackOversells`). `close_reason` is never set before closing, so every resumed
  unwind is closed as "resume_unwind" (`ArbReasons.RunTellsWhy`); and entry_fees is never set, so realised PnL is gross
  of fees (`ArbCarry.HedgeEarnsCarry`). The perp leg's exit is taken at a mark, not at the
  buy-back's fill, so the recorded PnL need not be the paid one (`RecordedIsPaidIff`, `HedgePaidIff`).
- The alignment, five-condition and sweep engines keep or drop a higher-timeframe frame by its
  whole length, bars still to come included, against their headers. So the same closed bars
  can be read or not, and a run on a prefix can lose trades that had ended
  (`MacroFrames.MacroEmaReadIff`, `OneBarShortLosesTrade`; `FrameTheorems.GapReadIff`,
  `ThreeBarsLoseTrade`; `LswReadIff`).
- The alignment engine also clips the index to 0, so before a frame's first close it reads the
  average of a bar that is still open, and can trade on it (`MacroFrames.OpenBarTurnsRun`).
  The five-condition engine clips too, without effect (`FrameTheorems.Smc5cHtfIsCausal`).
- Retrace mode is not causal across a pending limit (`EngineTheorems.SmcIsCausalIff`,
  `RetraceIsNotCausal`).
- The velocity window is not persisted: a restart within a minute of an open can break the
  limit (`RiskRuns.RestartForgetsMinute`, `RestartOverruns`). N engines can overrun both
  limits by N - 1 (`RiskOverruns.OverrunReachable`).
- Without a quantity increment the bump loop may not end (`LotSizing.BumpEndsIff`,
  `OffGridNeverEnds`).
- An undated record in train and a dated one in test change the equity order, and can break the
  drawdown bounds of the split (`Drawdown.FoldsJoinIff`, `UndatedRecordBreaksIt`).
- With a negative floor and room in the band leverage is not monotone: a halt returns 0
  (`DynamicLeverage.MonotoneIff`).

## Model

| member | source | states |
|---|---|---|
| StructureScanner.WindowBounds | crypto_trader/structure.py:69-70 | one pass over a window gives its least and greatest high (or low) |
| StructureScanner.ConfirmSwing | crypto_trader/structure.py:64-91 | candle i adds exactly the swing w candles back, and only if it is the extreme of a window that is not flat; the uniqueness guard never fires |
| StructureScanner.SweepScan | crypto_trader/structure.py:100-124 | the sweeps that one candle adds for one list of swings are those of the unbroken swings its wick pierces |
| StructureScanner.FindOrigin | crypto_trader/structure.py:151-155 | the walk back from the break finds the last candle that closed against it |
| StructureScanner.RecordBreak | crypto_trader/structure.py:135-170 | one break appends its tagged event, turns the bias and adds at most one order block, all as the tape of the longer break list says |
| StructureScanner.BreakSwing | crypto_trader/structure.py:131-209 | one swing against one candle: flag, index, event, tag, bias and block move together |
| StructureScanner.BreakScan | crypto_trader/structure.py:131-209 | the in-place pass over a swing list leaves every flag as first-touch defines it and the tape extended by exactly that candle's breaks |
| StructureScanner.MitigateBlocks | crypto_trader/structure.py:212-221 | the in-place pass over the order blocks moves every mitigation flag on by one candle |
| StructureScanner.DetectGaps | crypto_trader/structure.py:224-251 | candle i adds the gaps it completes with candle i-2 |
| StructureScanner.MitigateGaps | crypto_trader/structure.py:254-265 | the in-place pass over the gaps moves every mitigation flag on by one candle |
| StructureScanner.Scan | crypto_trader/structure.py:63-265 | the flag-flipping loop, on any candles and any window, arrives at the declarative ledger: swings, sweeps, events, bias, blocks and gaps |
| StructureTheorems.PivotExact | crypto_trader/structure.py:69-70 | a swing is a candle that nothing in its window passes and something falls short of (iff) |
| StructureTheorems.PivotsExact | crypto_trader/structure.py:63-91 | the swing list holds exactly the indices whose whole window is in the data and that are extremes |
| StructureTheorems.PivotsAscend | crypto_trader/structure.py:63-91 | swings are listed oldest first, none twice |
| StructureTheorems.BreakIsFirstTouch | crypto_trader/structure.py:131-134 | though watched only from its confirming candle on, a swing breaks at the first close past it after the swing itself: late confirmation misses nothing |
| StructureTheorems.SwingFlagsExact | crypto_trader/structure.py:131-134 | broken if and only if some later candle closes past the swing, and break_index is the first that does |
| StructureTheorems.Uncrossed | crypto_trader/structure.py:126-173 | no unbroken swing high ever lies below an unbroken swing low |
| StructureTheorems.NoCandleBreaksBothWays | crypto_trader/structure.py:131-186 | no candle emits both a bullish and a bearish break |
| StructureTheorems.EventsExact | crypto_trader/structure.py:131-186 | there is an event for a swing at candle i if and only if the swing is listed and its break index is i |
| StructureTheorems.BreaksAscend | crypto_trader/structure.py:131-186 | events are listed in time order |
| StructureTheorems.TurnsTakeACandle | crypto_trader/structure.py:135-177 | a CHoCH is always on a later candle than the break it answers, so the bias turns at most once a candle |
| StructureTheorems.TagsTellTheTurns | crypto_trader/structure.py:55-59 | the first event is a BOS, CHoCH marks exactly the changes of side, and trend_bias is the last event's side |
| StructureTheorems.SweepsExact | crypto_trader/structure.py:99-124 | the sweep list holds exactly the candles whose wick goes past a swing in its list while the close comes back, no close having passed it before; prices written out for each side |
| StructureTheorems.BlocksDistinct | crypto_trader/structure.py:156-158 | one order block per origin candle and direction |
| StructureTheorems.BlockForEveryBreak | crypto_trader/structure.py:146-170 | every break with an origin candle has its block, formed by it or by an earlier break |
| StructureTheorems.SeedsComeFromBreaks | crypto_trader/structure.py:151-170 | every order block is the origin of some break on the candle that formed it |
| StructureTheorems.BlockOrigins | crypto_trader/structure.py:146-170 | a bullish block copies a candle that closed below its open, after which no candle up to the break that formed it did; a bearish one the mirror image |
| StructureTheorems.BlockMissingIff | crypto_trader/structure.py:151-155 | a break leaves no block, its own or an earlier one, if and only if no candle up to it closed against it |
| StructureTheorems.BlockFlagsExact | crypto_trader/structure.py:212-221 | an order block is mitigated if and only if a later candle touches its near edge, at the first that does |
| StructureTheorems.GapsExact | crypto_trader/structure.py:224-251 | the gap list holds exactly the three-candle gaps there are |
| StructureTheorems.GapFlagsExact | crypto_trader/structure.py:254-265 | a gap is mitigated if and only if a later candle comes back to it, at the first that does |
| StructureTheorems.OpenGapsKeepApart | crypto_trader/structure.py:223-265 | at every point of the scan an open bullish gap lies strictly below every open bearish gap |
| StructureTheorems.UnmitigatedGapGeometry | crypto_trader/structure.py:223-298 | at the end of any series: bullish below bearish, bullish tops strictly rising, bearish bottoms strictly falling in formation order |
| StructureTheorems.LastCandleBetweenZones | crypto_trader/structure.py:254-265 | every open gap is on the side of the last candle that it was left on |
| NoLookAhead.LedgerPrefix | crypto_trader/structure.py:34-265 | the scan of a prefix equals the scan of the whole series stopped there |
| NoLookAhead.NoLookAhead | crypto_trader/structure.py:34-265 | swings, events, sweeps, blocks and gaps of a prefix are a prefix of the full scan's, with exactly the flags whose index lies inside the prefix |
| StructureReport.Analyze | crypto_trader/structure.py:36-330 | fewer than 20 candles, or than 2w + 1, give the empty result, any other the report of the scan |
| StructureReport.ReportWritten | crypto_trader/structure.py:293-330 | the report holds the counts, the latest three of each kind still open, in order and none skipped, the last break, sweep and change of character, and how many candles ago they were |
| StructureReport.ActiveSwingsUncrossed | crypto_trader/structure.py:295-322 | the last close lies between every reported active low and every reported active high |
| StructureReport.ReportedGapsKeepApart | crypto_trader/structure.py:298-328 | in the reported lists too, bullish gaps lie wholly below bearish ones |
| ArbRecords.DictRoundTrip | crypto_trader/arb_book.py:64-82 | from_dict(to_dict(a)) is a, every field, optional ones included, a decimal as the number its text denotes |
| ArbRecords.AbsentFieldsDefault | crypto_trader/arb_book.py:43-82 | a snapshot without a field reads back with its default; without id, symbol or state it is unreadable |
| DecimalText.TextRoundTrip | crypto_trader/arb_book.py:64-69 | reading back the text of any finite decimal gives the same sign, digits and exponent, so a snapshot keeps every quantity exactly |
| FundingArb.ArbBook.OpenRecord | crypto_trader/arb_book.py:212-215 | remembers the record, journals ARB_OPENING, persists the snapshot; nothing else changes |
| FundingArb.ArbBook.Update | crypto_trader/arb_book.py:217-223 | forgets a CLOSED record and remembers any other, journals the event, persists the snapshot |
| FundingArb.ArbBook.RecordFunding | crypto_trader/arb_book.py:225-232 | adds the amount and one payment, stamps the time, and journals and persists the result |
| FundingArb.ArbBook.Close | crypto_trader/arb_book.py:234-241 | settles the shared record in place and takes it off the open map |
| FundingArb.ArbBook.LoadOpen | crypto_trader/arb_book.py:185-209 | rebuilds the open map from the rows that are not CLOSED, in whatever order they come, skipping unreadable ones |
| FundingArb.FundingArbManager.RollbackPerp | crypto_trader/funding_arb_manager.py:165-176 | book, HALT and both venues end as the protocol's rollback says |
| FundingArb.FundingArbManager.CompleteSpotLeg | crypto_trader/funding_arb_manager.py:151-161 | hedged if the spot order is accepted, rolled back otherwise |
| FundingArb.FundingArbManager.PlacePerpLeg | crypto_trader/funding_arb_manager.py:135-161 | a refused perp leaves both venues flat and the record closed; an accepted one is recorded before the spot leg |
| FundingArb.FundingArbManager.MaybeEnter | crypto_trader/funding_arb_manager.py:115-163 | entry as the protocol says, error paths included |
| FundingArb.FundingArbManager.SellSpotLeg | crypto_trader/funding_arb_manager.py:222-236 | the second unwinding leg and the settlement |
| FundingArb.FundingArbManager.UnwindLegs | crypto_trader/funding_arb_manager.py:207-236 | the perp first, then the spot; HALT if the perp cannot be bought back |
| FundingArb.FundingArbManager.ManageHedge | crypto_trader/funding_arb_manager.py:179-204 | funding accrual, then the exit decision, as the protocol function says; the amounts are ArbFunding.TickPays |
| FundingArb.FundingArbManager.ResolveStuck | crypto_trader/funding_arb_manager.py:239-255 | each stuck state is resumed as the code does, UNWINDING_PERP left by a rollback included |
| FundingArb.FundingArbManager.OnSignalTick | crypto_trader/funding_arb_manager.py:77-93 | one whole tick on the mutable, shared objects refines the protocol function Tick |
| ArbSafety.TickMatches | crypto_trader/funding_arb_manager.py:115-255 | from a state that tells the exposure ((-q,0), (-q,+q), (0,+q), flat), a tick ends in one if and only if it is not the successful resumption of a failed rollback |
| ArbSafety.BadResumeOversells | crypto_trader/funding_arb_manager.py:251-252 | that resumption ends net short q spot with nothing on record |
| ArbSafety.TickEnds | crypto_trader/funding_arb_manager.py:77-93 | from any open record of its symbol a tick ends with no record, HEDGED, UNWINDING_PERP or UNWINDING_SPOT; a tick that leaves UNWINDING_PERP behind either changed nothing under HALT or is the one whose refused buy-back tripped it |
| ArbSafety.RunEnds | crypto_trader/funding_arb_manager.py:77-93 | the same over every run, resumed rollbacks included |
| ArbSafety.NeverNakedShort | crypto_trader/funding_arb_manager.py:165-176 | a tick that does not end in HALT never ends net short |
| ArbSafety.HaltOnlyUnwinds | crypto_trader/funding_arb_manager.py:82-85 | under HALT gross exposure never grows and only the two legs of unwinding a hedge are sent |
| ArbSafety.ReloadIsExact | crypto_trader/arb_book.py:185-209 | from a faithful book every order of reloading rebuilds exactly the lost map |
| ArbFleet.ReloadIsExactAt | crypto_trader/arb_book.py:185-209 | from a table shared with other books a reload brings back exactly the book's own record at its own symbol |
| ArbFleet.StepKeeps | crypto_trader/arb_book.py:185-241 | with several managers on one table every tick and restart of one keeps each book faithful at its own symbol, and a restart gives it its record back |
| ArbFleet.RunKeeps | crypto_trader/arb_book.py:185-241 | so does every run of any number of managers on one table |
| ArbSafety.AccrualSound | crypto_trader/funding_arb_manager.py:186-194 | an accrual keeps accrued_funding the sum of the journalled amounts and payments x interval within last_funding_ts - open_time |
| ArbFunding.TickPays | crypto_trader/funding_arb_manager.py:186-194 | a due tick raises accrued_funding by perp quantity x mark x rate and journals exactly that; no other tick touches it |
| ArbFunding.HedgeEarnsFunding | crypto_trader/funding_arb_manager.py:115-236 | over a run, the row of a closed hedge carries the sum of quantity x mark x rate over the ticks that were due, taken from the replies of the world, plus its size times the change of basis |
| ArbSafety.TickSound | crypto_trader/funding_arb_manager.py:77-93 | a tick keeps memory and table in agreement and the accounts balanced, whatever fails |
| ArbSafety.TickWrites | crypto_trader/funding_arb_manager.py:77-93 | a tick writes at most one row, that of its own record, and memory with it |
| ArbSafety.OtherSymbolsUntouched | crypto_trader/funding_arb_manager.py:77-93 | a tick changes no other symbol's open record |
| ArbSafety.RunKeepsBook | crypto_trader/arb_book.py:185-241 | over every run of ticks, HALT switches and restarts the book is a faithful, balanced cache |
| ArbSafety.RunMatches | crypto_trader/funding_arb_manager.py:115-255 | over every run with arbitrary order failures the state tells the exposure at every point if and only if no failed rollback is ever resumed with success |
| ArbSafety.FailedRollbackOversells | crypto_trader/funding_arb_manager.py:165-176 | a concrete run from nothing that ends short one spot unit with an empty book |
| ArbSafety.RealizedIsCarry | crypto_trader/funding_arb_manager.py:231-233 | realised PnL is accrued funding plus q times the change of basis less entry fees |
| ArbSafety.CarryIgnoresPriceLevel | crypto_trader/funding_arb_manager.py:231-233 | shifting both exit prices alike changes nothing |
| ArbSafety.UnwindPays | crypto_trader/funding_arb_manager.py:207-236 | whenever unwinding takes a record off the book, the persisted row carries that PnL |
| ArbCarry.TradeKept | crypto_trader/funding_arb_manager.py:77-255 | from the tick that hedges to the one that closes, across HALT switches and restarts, fills, sizes and fees of the record never change |
| ArbCarry.HedgeEarnsCarry | crypto_trader/funding_arb_manager.py:115-236 | over a run, the row of a closed hedge carries the funding journalled for it plus its size times the basis of its entry fills less the basis the code reads at the exit; no fee, as none is ever set |
| ArbCarry.RecordedIsPaidIff | crypto_trader/funding_arb_manager.py:214-234 | the PnL recorded for a hedge closed in one tick is what its fills paid if and only if the exit mark is the price of the buy-back |
| ArbCarry.HedgePaidIff | crypto_trader/funding_arb_manager.py:207-255 | over a run, however many ticks the exit took: if and only if the mark at the sale of the spot leg is the price of the tick that bought the perp back |
| ArbSafety.LegsFillNotional | crypto_trader/funding_arb_manager.py:102-113 | the leg size is the most whole steps whose value at the mark stays within the notional |
| ArbSafety.LegsOtherwise | crypto_trader/funding_arb_manager.py:102-113 | without a step the leg is worth the notional exactly; without a positive notional or mark it is zero |
| ArbSafety.EntryOutcomes | crypto_trader/funding_arb_manager.py:115-176 | an entry attempt ends refused and flat, hedged, rolled back and flat, or short under HALT, by which orders are accepted, and leaves exactly the record written out for it |
| ArbSafety.EntryJournal | crypto_trader/funding_arb_manager.py:115-176 | and journals exactly these events, in this order |
| ArbSafety.UnwindJournal | crypto_trader/funding_arb_manager.py:207-236 | unwinding journals the perp leg begun, the perp leg done and the close, as far as it gets |
| ArbReasons.TickTells | crypto_trader/funding_arb_manager.py:77-255 | a tick leaves its record on the book or closes it with the reason that the state it was in and the readings of the tick make, and the time of the tick |
| ArbReasons.ResumeTells | crypto_trader/funding_arb_manager.py:251-252 | a resumed unwinding closes with the reason the record carries, or resume_unwind if it carries none or an empty one |
| ArbReasons.RunUntold | crypto_trader/arb_book.py:185-241 | over every run, failures, HALT switches and restarts included, no record on the book carries a close reason |
| ArbReasons.RunTellsWhy | crypto_trader/funding_arb_manager.py:207-255 | so over every run a record is closed for that reason, and whatever began an unwinding that a later tick finished, its row says resume_unwind |
| ArbSafety.OpensIff | crypto_trader/funding_arb_manager.py:96-163 | orders permitting, a hedge of equal legs is opened if and only if funding is rich enough, the premium inside the band and the size positive |
| ArbSafety.LeavesIff | crypto_trader/funding_arb_manager.py:179-204 | orders permitting, a hedge is left if and only if funding flips or decays or the basis drifts; when an interval has passed, and only then, quantity x mark x rate is booked |
| Engines.FindExit | crypto_trader/backtest/mta_engine.py:136-155 | the inner loop stops at the first bar that triggers an exit |
| Engines.FindFill | crypto_trader/backtest/smc_engine.py:197-205 | the fill search finds the first bar inside the timeout that trades at the limit |
| Engines.ScanSmc | crypto_trader/backtest/smc_engine.py:126-276 | the SMC loops, the fill search for a resting limit included, equal the recursive replay in both modes |
| Engines.Scan | crypto_trader/backtest/mta_engine.py:103-175 | the nested index loops of the market-entry engines equal the recursive replay: trades, signals, liquidations and fee drag |
| ReplayTheorems.RunRecordsTrades | crypto_trader/backtest/lsw_engine.py:97-158 | the run's trade list is the entered-and-exited trades in order |
| ReplayTheorems.RunCounts | crypto_trader/backtest/lsw_engine.py:145-156 | from any bar on, liquidations and fee drag grow with the trade list, and no signal makes two trades |
| ReplayTheorems.RunTotals | crypto_trader/backtest/lsw_engine.py:97-158 | the liquidations of a run are its liquidated trades, its fee drag two fees for each trade; an engine that enters on every signal trades each but the one still open at the end |
| ReplayTheorems.TradesInSequence | crypto_trader/backtest/smc5c_engine.py:103-190 | every trade leaves at the first triggering bar after its entry, and no trade starts before the one before it has ended |
| EngineBounds.RunFollowsRule | crypto_trader/backtest/lsw_engine.py:97-158 | a list of trades is the run's if and only if each is the plan of the first entering bar after the exit before it, left where the bars say, and no entry with an exit is left over: no signal is skipped and none made up |
| EntryRules.BiasWritten | crypto_trader/strategies/mtf_alignment.py:36-47 | the bias is long if and only if enough averages are there and the close is above every one, short if and only if it is below every one of at least one |
| EntryRules.AverageRead | crypto_trader/backtest/mta_engine.py:90-98 | the average read of a frame is the one at the last bar that had closed, or at its first bar if none had |
| EntryRules.MtaEntersIff | crypto_trader/backtest/mta_engine.py:104-132 | the alignment engine goes long if and only if enough averages are there, the close is above every one and above every high of the lookback, and the rising body swallows the falling one before it; short the mirror image; stop and target from the extreme of the swing, not nearer than the least fraction |
| EntryRules.MtaTradesWritten | crypto_trader/backtest/mta_engine.py:103-175 | every trade of every alignment run was entered on exactly those conditions and with that plan |
| EntryRules.BosWritten | crypto_trader/strategies/smc_5c.py:54-65 | +1 if and only if the last close is above every high of the lookback before it, -1 below every low |
| EntryRules.GapWritten | crypto_trader/strategies/smc_5c.py:68-82 | a gap of a side is reported if and only if some bar of the window forms one, a bar that forms both counting as bullish |
| EntryRules.ReadUpTo | crypto_trader/backtest/smc5c_engine.py:91-123 | the part of a higher-timeframe frame that the conditions read is what had closed, but at least its first bar |
| EntryRules.Smc5cEntersIff | crypto_trader/backtest/smc5c_engine.py:104-148 | the five-condition engine goes long, or short, if and only if its five conditions hold for that side, with stop and target their percentages from the close |
| EntryRules.LswEntersIff | crypto_trader/backtest/lsw_engine.py:97-112 | the sweep engine enters if and only if evaluate finds a setup in the trailing window and the closed part of a feed of 30 bars |
| EntryRules.SmcEntersIff | crypto_trader/backtest/smc_engine.py:149-212 | the SMC engine asks for 30 closed bars; a setup is entered at once, or at the first bar within the timeout that trades at its limit, and otherwise left |
| EntryRules.MarketWritten | crypto_trader/backtest/smc_engine.py:211-215 | a market entry takes side, price and stop from the setup, a target unless it is 0, and risks what lies between entry and stop |
| EntryRules.RetraceWritten | crypto_trader/backtest/smc_engine.py:177-194 | a resting entry stops a buffer beyond the swept price, or half an ATR from the limit where that is no stop, with its target in units of the risk |
| EntryRules.LongExitWritten | crypto_trader/backtest/mta_engine.py:137-155 | which exit a bar triggers for a long and at what price: target, stop, a full 1/leverage of the entry lost, time stop, in that order |
| EntryRules.ShortExitWritten | crypto_trader/backtest/mta_engine.py:137-155 | the mirror image for a short |
| EntryRules.EarningsWritten | crypto_trader/backtest/mta_engine.py:158-162 | a trade earns the move in its favour less two fees on the entry, and pnl_r times its risk is that move |
| ReplayTheorems.HeldWithinLimit | crypto_trader/backtest/mta_engine.py:153-154 | no trade outlives max_hold_bars |
| ReplayTheorems.RealizedIsGainLessFees | crypto_trader/backtest/mta_engine.py:158-160 | the recorded result is the gain per unit less two fees on the entry price |
| ReplayTheorems.GainByReason | crypto_trader/backtest/smc_engine.py:224-244 | exit price and priority of each reason: a bar that reaches target and stop counts as target, liquidation only if neither, time stop last |
| ReplayTheorems.PnlWithinBracket | crypto_trader/backtest/mta_engine.py:120-162 | for any plan whose stop and target bracket its entry, pnl_r lies in [-1, tp_r] whatever the exit, liquidations and time stops included |
| ReplayTheorems.NoLiquidationInsideStop | crypto_trader/backtest/mta_engine.py:147-152 | for such a plan a stop fraction of at most 1/leverage is always reached before liquidation |
| EngineBounds.MtaRunContained | crypto_trader/backtest/mta_engine.py:103-175 | every trade of every alignment run has pnl_r in [-1, tp_r], and is not liquidated if its risk is at most 1/leverage of the entry |
| EngineBounds.Smc5cRunContained | crypto_trader/backtest/smc5c_engine.py:101-191 | every trade of every five-condition run has pnl_r in [-1, tp_pct/sl_pct], and none is liquidated if sl_pct is at most 1/leverage |
| EngineBounds.RetraceRunContained | crypto_trader/backtest/smc_engine.py:149-276 | every trade of every retrace run has pnl_r in [-1, tp_rr], and is not liquidated if its risk is at most 1/leverage of the limit |
| EngineBounds.MtaEntryBracketed | crypto_trader/backtest/mta_engine.py:124-131 | the swing window holds the entry bar, so stop and target always bracket the entry, min_stop_frac or not |
| EngineBounds.RetraceBracketed | crypto_trader/backtest/smc_engine.py:182-194 | the retrace stop, moved half an ATR away when it is no stop, and target bracket the limit |
| ReplayTheorems.RunIsCausal | crypto_trader/backtest/lsw_engine.py:97-158 | for a rule that reads no later bar, the trades on the first m bars are the initial segment of the full run's trades that exit before m |
| EngineTheorems.MtaIsCausal | crypto_trader/backtest/mta_engine.py:104-119 | the alignment rule reads no later bar |
| EngineTheorems.LswIsCausal | crypto_trader/backtest/lsw_engine.py:98-112 | the liquidity-sweep rule reads no later bar, whatever evaluate computes |
| EngineTheorems.Smc5cIsCausal | crypto_trader/backtest/smc5c_engine.py:103-148 | the five-condition rule reads no later bar |
| EngineTheorems.SmcCausalIff | crypto_trader/backtest/smc_engine.py:177-208 | a decision depends on bars from m on if and only if a limit resting at that bar is first filled at m or later |
| EngineTheorems.PrefixTrades | crypto_trader/backtest/smc_engine.py:149-276 | the trades on a prefix are those of the full run that exit inside it, followed by everything recorded after the first visited bar whose limit is filled across the cut |
| EngineTheorems.SmcIsCausalIff | crypto_trader/backtest/smc_engine.py:149-276 | so a run is causal at m if and only if nothing is recorded after that bar; in market mode there is no such bar |
| EngineTheorems.RetraceIsNotCausal | crypto_trader/backtest/smc_engine.py:131-208 | for every warm-up a concrete run whose prefix records a trade that the full run never makes |
| FrameTheorems.ClippedIndexClosedIff | crypto_trader/backtest/mta_engine.py:97 | the clipped higher-timeframe index names a closed bar if and only if one has closed |
| MacroFrames.MacroEmaReadIff | crypto_trader/backtest/mta_engine.py:90-98 | the average read of a frame is the same over all frames that agree on what had closed if and only if ema_len + 2 bars had; with none closed it is that of a bar still open |
| MacroFrames.CutReadIff | crypto_trader/backtest/mta_engine.py:90-98 | the average read of a frame cut at a bar is the same at every earlier bar if and only if the frame was too short in all or still has ema_len + 2 bars |
| MacroFrames.OpenBarTurnsRun | crypto_trader/backtest/mta_engine.py:53-175 | with the default settings a run whose frames have no closed bar trades or not by the average of their open bars |
| MacroFrames.OneBarShortLosesTrade | crypto_trader/backtest/mta_engine.py:53-175 | with 51 of 52 bars closed, cutting the last one makes the frames too short, and the run loses a trade that had already ended |
| FrameTheorems.LswReadIff | crypto_trader/backtest/lsw_engine.py:91-103 | what the sweep engine hands to evaluate is the same over all feeds that agree on what had closed if and only if 30 bars had |
| FrameTheorems.LswCutIff | crypto_trader/backtest/lsw_engine.py:91-103 | cut at a bar, it is the same at earlier bars if and only if the feed was too short in all or still has 30 bars |
| FrameTheorems.HtfIsCausal | crypto_trader/backtest/lsw_engine.py:99-104 | between feeds of which both are long enough or neither, the sweep decisions depend only on what had closed |
| FrameTheorems.SmcHtfIsCausal | crypto_trader/backtest/smc_engine.py:132-160 | the SMC engine, which asks for its 30 bars among the closed ones, depends only on what had closed, in either mode |
| FrameTheorems.GapReadIff | crypto_trader/backtest/smc5c_engine.py:91-131 | the gap condition is the same over all frames that agree on what had closed if and only if five bars had, or those that had show no gap |
| FrameTheorems.BreakReadIff | crypto_trader/backtest/smc5c_engine.py:91-123 | so is the break condition |
| FrameTheorems.Smc5cHtfIsCausal | crypto_trader/backtest/smc5c_engine.py:91-131 | between frames of which the same are usable the five-condition decisions depend only on what had closed, though the index is clipped: the slice of an open bar satisfies no condition |
| MacroFrames.MtaHtfIsCausal | crypto_trader/backtest/mta_engine.py:90-106 | where every frame is too short in both feeds or has ema_len + 2 closed bars, the alignment decisions depend only on what had closed |
| FrameTheorems.LswRunIsCausal | crypto_trader/backtest/lsw_engine.py:97-158 | a sweep run on the first m bars, with a feed that keeps its length cut where the last of them closed, records exactly the full run's trades that exit before m |
| FrameTheorems.SmcRunIsCausal | crypto_trader/backtest/smc_engine.py:149-276 | so does an SMC run in market mode, with any feed; in retrace mode it adds only what follows a limit pending across the cut |
| FrameTheorems.Smc5cRunIsCausalIff | crypto_trader/backtest/smc5c_engine.py:91-191 | so does a five-condition run with all three frames cut, if and only if each was too short in all or still has five bars, or the full run had finished no trade |
| FrameTheorems.Smc5cRunIsCausal | crypto_trader/backtest/smc5c_engine.py:91-191 | with a break lookback of 3 or more only a 15m frame of 3 or 4 closed bars can break it |
| FrameTheorems.ThreeBarsLoseTrade | crypto_trader/backtest/smc5c_engine.py:91-191 | a run with the default settings where it does: the trade that had ended is lost |
| MacroFrames.MtaRunIsCausal | crypto_trader/backtest/mta_engine.py:90-175 | so does an alignment run where every frame was too short in all or still has ema_len + 2 bars |
| RiskManagement.RiskManager.constructor | crypto_trader/risk.py:174-224 | a new manager reads its counters from the state file and starts with no recent opens |
| RiskManagement.RiskManager.SaveState | crypto_trader/risk.py:428-439 | the state file holds the counters, and not the recent opens |
| RiskManagement.RiskManager.ResetDailyStatsIfNewDay | crypto_trader/risk.py:247-252 | the counters roll over exactly when the UTC date has changed |
| RiskManagement.RiskManager.HasReachedVelocityLimit | crypto_trader/risk.py:257-262 | the in-place pruning keeps exactly the last minute and the answer counts it |
| RiskManagement.RiskManager.CanTrade | crypto_trader/risk.py:297-319 | verdict and new state of the short-circuiting gate |
| RiskManagement.RiskManager.RecordOpen | crypto_trader/risk.py:346-350 | one more open today and in the recent list, saved |
| RiskManagement.RiskManager.RecordClose | crypto_trader/risk.py:352-391 | the outcome is booked on the right day, saved, and the kill switch tripped where the daily loss says so |
| RiskManagement.RiskManager.TriggerKillSwitch | crypto_trader/risk.py:229-235 | the switch is set in memory and in the state file |
| RiskManagement.RiskManager.ClearKillSwitch | crypto_trader/risk.py:237-242 | the switch is cleared in memory and in the state file |
| RiskHistory.PeakNeverFalls | crypto_trader/risk.py:393-400 | over every run, restarts included, the peak never falls |
| RiskHistory.RunRemembers | crypto_trader/risk.py:352-439 | over every run, restarts included, the peak is the highest positive balance reported and the loss counter the streak since the last win or pardon |
| RiskHistory.HighestIsHighest | crypto_trader/risk.py:393-400 | that peak was reported, and no positive balance ever reported is higher |
| RiskHistory.LossStreakHalts | crypto_trader/risk.py:274-275 | as many losses in a row as the limit refuse every check until a win or a pardon, across restarts |
| RiskHistory.RunKilledIff | crypto_trader/risk.py:229-242 | over every run, restarts included, the kill switch is on if and only if an explicit call or a close at the daily loss limit threw it and nothing cleared it since |
| RiskHistory.RunVerdict | crypto_trader/risk.py:257-319 | over every run with restarts that each find the last minute empty, a check is answered by the first rule that objects, each written out over the history of calls: drawdown if the highest balance less the present one is at least the limit share of it, cooldown if the last losing close is less than the cooldown ago, leverage if the notional exceeds the limit times the balance |
| RiskRuns.RulesWritten | crypto_trader/risk.py:277-295 | cooldown, drawdown and leverage rule as inequalities without a quotient |
| RiskRuns.PruneKeepsWindow | crypto_trader/risk.py:261 | pruning loses nothing that any later look at the window could count |
| RiskRuns.PruneIsWindow | crypto_trader/risk.py:261-262 | what is kept is exactly the opens of the last minute |
| RiskRuns.GateAllowsIff | crypto_trader/risk.py:154-163 | the gate allows a trade if and only if no rule objects, each an inequality over the full history of opens and closes |
| RiskRuns.VelocityLimit | crypto_trader/risk.py:257-262 | with N engines interleaving, and restarts that each find the last minute empty, no 60-second window holds more than max_orders_per_minute + N - 1 opens; exact for N = 1 |
| RiskRuns.RestartForgetsMinute | crypto_trader/risk.py:428-457 | after a restart the list still stands for the history if and only if the last minute held no open |
| RiskRuns.RestartOverruns | crypto_trader/risk.py:428-457 | otherwise the limit can break: a run of one engine with one open a minute ends with two in one minute, a restart between them |
| RiskRuns.StepTallies | crypto_trader/risk.py:247-252 | every call, restarts included, keeps the daily counters equal to what happened on their date |
| RiskRuns.DailyLimitHolds | crypto_trader/risk.py:254-255 | no UTC day holds more than max_daily + N - 1 opens, across restarts; exact for N = 1 |
| RiskOverruns.OverrunReachable | crypto_trader/multi_engine.py:513 | the N - 1 is attained for every number of engines: on a day for every daily limit up to 1440 times the minute limit, in a minute for every minute limit up to the daily one |
| RiskRuns.RunLatched | crypto_trader/risk.py:229-242 | once thrown, the switch refuses every check until an explicit clear, across midnight and restarts |
| RiskRuns.CloseTripsIff | crypto_trader/risk.py:376-391 | a close throws the switch if and only if it takes the day's loss to the limit share of the true opening balance |
| RiskRuns.DailyLossLatches | crypto_trader/risk.py:352-391 | the first close that reaches the daily loss shuts the gate until a clear, whatever happens in between |
| DynamicLeverage.RoundIsNearest | crypto_trader/margin_engine.py:269 | rounding gives the nearest integer, the even one of two |
| DynamicLeverage.ComputeInBand | crypto_trader/margin_engine.py:222-275 | 0 when halted with room in the band, else in [floor, ceiling] and under the band, system, base and venue caps; halts do not bind without room |
| DynamicLeverage.BandWritten | crypto_trader/margin_engine.py:222-227 | the ceiling is the least of the caps that are given, the floor the configured minimum or the ceiling if that is less |
| DynamicLeverage.RegimeWritten | crypto_trader/margin_engine.py:186-195 | which regimes are not traded, and the share of each that is |
| DynamicLeverage.ComputeWritten | crypto_trader/margin_engine.py:241-275 | a signal that is not halted gets the whole number nearest to floor + product x room, the even one of two, the five factors characterised one by one |
| DynamicLeverage.ComputeMonotone | crypto_trader/margin_engine.py:222-275 | never higher for more volatility, drawdown or margin use or less conviction, across all branches, rounding and halts, where a halt does not meet a negative floor |
| DynamicLeverage.MonotoneIff | crypto_trader/margin_engine.py:222-275 | for any band and caps, leverage is monotone over all conditions if and only if the floor is not negative or the band has no room |
| DynamicLeverage.FullHeadroom | crypto_trader/margin_engine.py:241-275 | the ceiling is reached when everything is favourable |
| DynamicLeverage.AnyRiskFactorFloors | crypto_trader/margin_engine.py:249-275 | any single exhausted factor brings the leverage to the floor |
| LotSizing.RiskQuantityLosesBudget | crypto_trader/engine_ws.py:2657-2659 | what the sized trade loses at its stop is the risk budget |
| LotSizing.BumpEndsIff | crypto_trader/engine_ws.py:2692-2705 | at any price the guard loop ends if and only if its closed-form condition holds: on a grid with a positive price always, else by one test |
| LotSizing.OffGridNeverEnds | crypto_trader/engine_ws.py:2692-2705 | without an increment a minimum notional of 100 at a price of 3 keeps the loop going for ever |
| LotSizing.Bump | crypto_trader/engine_ws.py:2692-2705 | the loop stops at the first legal quantity of its sequence |
| LotSizing.StartWritten | crypto_trader/engine_ws.py:2692-2703 | the loop starts from the larger of the two minima, the quotient as it was rounded; on a grid from the next multiple of the increment away from zero |
| LotSizing.BumpUnique | crypto_trader/engine_ws.py:2704-2705 | the bump is determined by the inputs: the loop has one possible result |
| LotSizing.BumpIsLarger | crypto_trader/engine_ws.py:2692-2705 | however the division rounds, the bump is the larger of the least legal lot and the lot it started from |
| LotSizing.BumpLeastIff | crypto_trader/engine_ws.py:2692-2705 | it is the least legal lot if and only if the number of increments it starts from is at most the ceiling of the need over the increment |
| LotSizing.BumpIsLeast | crypto_trader/engine_ws.py:2692-2705 | with any monotone rounding of the quotient that can hold the least legal lot, up or down, the bump returns that lot, and no smaller multiple is legal |
| LotSizing.Size | crypto_trader/engine_ws.py:2646-2737 | no stop, no size; a risk quantity that meets both minima is kept; otherwise the bump, refused if and only if its value exceeds the available balance times the leverage |
| Drawdown.CurveDrawdown | crypto_trader/analytics/metrics.py:192-199 | the one-pass value is the largest cum_i - cum_j over i <= j, the start included |
| Drawdown.MaxDrawdown | crypto_trader/analytics/metrics.py:183-199 | the same over the realised records in close order |
| Drawdown.EquityWritten | crypto_trader/analytics/metrics.py:183-191 | that order holds every record with a result, each with its own result, dated ones by close time and before the undated ones |
| Drawdown.SplitPartitions | crypto_trader/calibration/walkforward.py:22-29 | each record goes to exactly one fold, and no test record closed before a train one |
| Drawdown.SplitSize | crypto_trader/calibration/walkforward.py:22-29 | train is the whole number of records within the fraction, truncated towards zero; a negative fraction takes test from the end, one beyond 1 leaves a fold empty |
| Drawdown.SortKeepsTies | crypto_trader/analytics/metrics.py:188-191 | the sort is stable: records of one close time keep their order |
| Drawdown.FoldsJoinIff | crypto_trader/calibration/walkforward.py:22-29 | the folds' records in equity order, laid end to end, are the whole's if and only if no undated realised record in train meets a dated one in test |
| Drawdown.SplitBoundsDrawdown | crypto_trader/calibration/walkforward.py:22-39 | whenever they are, max(dd(train), dd(test)) <= dd(all) <= dd(train) + dd(test) |
| Drawdown.UndatedRecordBreaksIt | crypto_trader/analytics/metrics.py:188-191 | without close times a fold can draw down more than the whole, as the two functions order such records differently |
| Wallet.EnhancedFuturesWallet.AvailableBalance | scratch/binance_futures_trading_system.py:493-496 | balance less the margin of all open positions, never negative |
| Wallet.EnhancedFuturesWallet.ClosePosition | scratch/binance_futures_trading_system.py:573-596 | the remainder times the move in its favour, less 0.0004 of its value, is paid out, and balance and realised total move together |
| Wallet.EnhancedFuturesWallet.PartialClose | scratch/binance_futures_trading_system.py:542-571 | a share, and the rest too if it is dust, is paid out by the same arithmetic; the share alone counts as partial PnL; balance and realised total move together |
| Wallet.EnhancedFuturesWallet.PlaybookExit | scratch/binance_futures_trading_system.py:639-681 | target, breakeven and trailing exits in the code's order |
| Wallet.EnhancedFuturesWallet.UpdatePositions | scratch/binance_futures_trading_system.py:605-681 | every position moves by its own rule, the balance by the sum of the payouts, in any visiting order; balance - initial == realized_pnl_total is kept, and sane positions stay sane, ordered ladders taken in order |
| Wallet.EnhancedFuturesWallet.OpenPosition | scratch/binance_futures_trading_system.py:502-540 | refused exactly if the symbol is open or nothing is free; otherwise a whole position with margin x leverage of value at the mark, sane if its targets are fresh and in order if they are ordered, the fee taken from both totals |
| WalletRules.UpdateSane | scratch/binance_futures_trading_system.py:605-681 | a swing position's remainder is always 1, 1/2 or 1/4 of the original (or 0 when closed) by the targets it has taken, and its stop the initial stop or the entry |
| WalletRules.SecondNeedsFirst | scratch/binance_futures_trading_system.py:648-671 | on an ordered ladder the second target is never taken before the first |
| WalletRules.SwingLadderOrdered | scratch/binance_futures_trading_system.py:394-417 | the swing playbook's ladder, the only one of two targets, is fresh and ordered at any price: 1 % and 2 % in favour |
| WalletRules.SecondFirstIff | scratch/binance_futures_trading_system.py:648-671 | otherwise exactly the prices that reach the second target and not the first take it first |
| WalletRules.SurvivorInsideStops | scratch/binance_futures_trading_system.py:620-637 | a position still open after an update is inside the price and time stops and has lost at most half its margin, written out for each side |
| WalletRules.UpdateWritten | scratch/binance_futures_trading_system.py:605-681 | what a price update leaves of an open position: which stop, target or trail it meets in the code's order, the remainder, stop, flags and marks that follow |
| WalletRules.UpdatePaysForWhatLeaves | scratch/binance_futures_trading_system.py:542-603 | an update pays the quantity by which the position shrank times the move in its favour, less 0.0004 of that quantity's value |
| WalletRules.LifePays | scratch/binance_futures_trading_system.py:542-681 | over any series of prices the cash of a life is that, summed quote by quote |
| WalletRules.LifeIsSane | scratch/binance_futures_trading_system.py:605-681 | over any series of prices size, stop and target order stay right |
| WalletRules.UpdateAccounts | scratch/binance_futures_trading_system.py:542-603 | an update's lots, what partial_close and close_position close, make up the quantity that left, the cash and the partial PnL, dust as a lot of its own |
| WalletRules.LifeAccounts | scratch/binance_futures_trading_system.py:542-681 | over any series of prices so do all the lots of a life, and every lot is a positive quantity |
| WalletRules.QuantityConserved | scratch/binance_futures_trading_system.py:558-591 | original quantity is what remains plus the lots closed; a closed position has closed exactly its original quantity |
| Shadow.ShadowMetrics.Record | crypto_trader/ai/shadow.py:70-86 | one result moves exactly the counters of its kind and at most one capped sample of each sort |
| Shadow.StepAccounted | crypto_trader/ai/shadow.py:232-265 | every atomic step keeps permits + in-flight == capacity and submissions == recorded + dropped + lost + pending |
| Shadow.RunAccounted | crypto_trader/ai/shadow.py:232-265 | so does every interleaving of any number of threads |
| Shadow.BoundedAndComplete | crypto_trader/ai/shadow.py:232-265 | never more than max_concurrent in flight; once all have finished every permit is back, failed starts included, and submissions == recorded + dropped |
| Shadow.NobodyStuck | crypto_trader/ai/shadow.py:232-265 | whatever phase a submission is in, it can take its next step |
| Shadow.StepsRunOut | crypto_trader/ai/shadow.py:232-265 | every step brings its own submission one nearer to its end and moves no other |
| Shadow.StartedLife | crypto_trader/ai/shadow.py:232-265 | a submission that starts is evaluated and recorded, and its permit is back |
| Shadow.FailedLife | crypto_trader/ai/shadow.py:250-256 | one whose thread fails to start is counted as dropped, and its permit is back |
| Shadow.RunTallies | crypto_trader/ai/shadow.py:70-86 | in every interleaving each counter is the number of evaluations of its kind so far; agreements are the valid decisions with the primary's action |
| Shadow.TurnedAwayOnlyWhenFull | crypto_trader/ai/shadow.py:245-247 | a submission is dropped at the door if and only if every permit is in use |
| Shadow.AgreementMeansSameAction | crypto_trader/ai/shadow.py:186-230 | which counter an evaluation moves, for every reply and validation |

## Left out

Market structure:
- open_time copies in the dictionaries, the price-action signals (pinbar, engulfing) and unsorted input: single expressions, nothing to relate.
- The lists of dictionaries are updated as sequences of values; that a reported element is the same object as the scanned one is not captured, nor is the `candles_ago` field written into it.

Funding arbitrage:
- Failures of the database or the journal, crashes between an order and its record, and orders that raise but were filled: the code has no handling for them.
- uuid collisions (ids are taken to be unused), NaN and infinite decimals, and event payloads beyond what the accounts need.
- ArbRecords.DictRoundTrip: carries a decimal as the number that its text denotes, because the protocol computes over exact reals; that the text itself loses nothing is DecimalText.TextRoundTrip.
- from_dict on foreign data: a state name outside the six, or a value of the wrong JSON type, reads as unreadable here, while the code would accept some of it. Snapshots that the book wrote itself always read back.
- While HALT stands the live order gate may refuse orders; here that is an order that fails.
- ArbSafety.RunKeepsBook: one book per table. With a database_url every symbol's book loads all open rows, without a namespace filter, and then holds records of other symbols that go stale; what is then kept, at each book's own symbol, is ArbFleet.RunKeeps.
- ArbSafety.RunMatches: one manager's ticks; other symbols' managers on a shared book enter only through OtherSymbolsUntouched.

Backtests:
- pandas and numpy numerics (EMA, ATR, percentiles, relative volume): arrays and functions passed in. trend_dir, which compares two EMAs, is one of them. Lookbacks of 0, where numpy raises, give no signal.
- Trade ids, timestamps, the smc `evaluated` counter and the derived statistics of the result object.
- EngineTheorems.MtaIsCausal: the macro frames are fixed while the entry series is cut, as in the engine's signature; MacroFrames.MtaRunIsCausal cuts both.
- EngineTheorems.Smc5cIsCausal: the higher-timeframe frames are fixed while the entry series is cut; FrameTheorems.Smc5cRunIsCausalIff cuts both.
- EngineBounds.MtaRunContained: the sweep engine and market mode of the SMC engine take their stop and target from evaluate, which is arbitrary here, so their bracket is not claimed; PnlWithinBracket applies where evaluate gives one.
- Prices of entries and closes are positive; max_hold_bars is the value after the default has been filled in.

Risk and sizing:
- check_correlation, check_margin_ratio, apply_overrides and the wording of reasons; lost updates inside one call under real thread races.
- RiskRuns.VelocityLimit: excludes restarts within a minute of an open, because RestartOverruns breaks the limit with one.
- RiskRuns.CloseTripsIff: all balance changes go through record_close, as the code's reconstruction of the opening balance supposes.
- LotSizing.Bump: requires that the loop can end, which BumpEndsIff characterises; the rounding of the other decimal operations and the branch for a missing venue specification are not modelled.
- Cosmetic rounding to four places in the metrics; the verdict of walkforward.validate (comparisons of fold metrics); the other metrics.
- AdaptiveThresholdManager and the LLM circuit breaker.

Wallet and shadow:
- Wallet.EnhancedFuturesWallet.UpdatePositions: requires two targets of every swing position, because the code fails on the list access without them.
- unrealized_pnl_total and margin_balance, the state file, the closing callback, close time, price and reason, upper-casing of symbols.
- A primary decision without an action, on which evaluate would raise after a valid reply: the router passes a typed decision.
- Shadow's JSONL audit, percentiles and logging, and the retry with an older validator signature.

Not modelled at all: clients of exchanges and language models, chat bots, dashboards, databases, command lines, strategy scoring tables.
