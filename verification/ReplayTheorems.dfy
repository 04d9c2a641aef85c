/** What a replay may be trusted for: causality, no overlap, bounded results. */
module ReplayTheorems {
  import opened Wrappers
  import opened Reals
  import opened Replay

  // ----- the trades of a run, without the counters -----

  function TradesFrom(rule: Rule, bars: seq<Bar>, r: Rules, i: nat): seq<Trade>
    decreases |bars| - i
  {
    if i + 1 >= |bars| then []
    else
      var d := rule(bars, i);
      if !d.Enter? then TradesFrom(rule, bars, r, i + 1)
      else
        var entryIdx := i + d.delay;
        var x := FirstExit(bars, d.plan, entryIdx, r, entryIdx + 1);
        if x.None? then []
        else
          [TradeOf(d.plan, entryIdx, r, x.value, ExitAt(bars, d.plan, entryIdx, r, x.value).value)]
          + TradesFrom(rule, bars, r, x.value + 1)
  }

  lemma {:induction false} RunRecordsTrades(rule: Rule, bars: seq<Bar>, r: Rules, i: nat, o: Outcome)
    ensures RunFrom(rule, bars, r, i, o).trades == o.trades + TradesFrom(rule, bars, r, i)
    decreases |bars| - i
  {
    if i + 1 < |bars| {
      var d := rule(bars, i);
      if d.NoSignal? {
        RunRecordsTrades(rule, bars, r, i + 1, o);
      } else if d.NotEntered? {
        RunRecordsTrades(rule, bars, r, i + 1, Signal(o));
      } else {
        var entryIdx := i + d.delay;
        var x := FirstExit(bars, d.plan, entryIdx, r, entryIdx + 1);
        if x.Some? {
          var t := TradeOf(d.plan, entryIdx, r, x.value, ExitAt(bars, d.plan, entryIdx, r, x.value).value);
          RunRecordsTrades(rule, bars, r, x.value + 1, Record(Signal(o), r, t));
        }
      }
    }
  }

  function Liquidated(ts: seq<Trade>): nat {
    if ts == [] then 0 else (if ts[0].exit.reason.Liquidation? then 1 else 0) + Liquidated(ts[1..])
  }

  /** The fee drag of n round trips. */
  function Drag(r: Rules, n: nat): real {
    n as real * (r.takerFee * 2.0 * 100.0)
  }

  lemma DragGrows(r: Rules, n: nat)
    ensures Drag(r, n + 1) == r.takerFee * 2.0 * 100.0 + Drag(r, n)
  {
    var d := r.takerFee * 2.0 * 100.0;
    assert (n + 1) as real * d == n as real * d + d;
  }

  /** The counters agree with the trades: liquidations are counted once each, every trade
      pays two fees, and at most one trade comes of a signal. */
  lemma {:induction false} RunCounts(rule: Rule, bars: seq<Bar>, r: Rules, i: nat, o: Outcome)
    ensures
      var o', ts := RunFrom(rule, bars, r, i, o), TradesFrom(rule, bars, r, i);
      && o'.liquidations == o.liquidations + Liquidated(ts)
      && o'.feeDragPct == o.feeDragPct + Drag(r, |ts|)
      && |ts| <= o'.signals - o.signals
    decreases |bars| - i
  {
    hide FirstExit, ExitAt, TradeOf, Drag;
    if i + 1 < |bars| {
      var d := rule(bars, i);
      if d.NoSignal? {
        RunCounts(rule, bars, r, i + 1, o);
      } else if d.NotEntered? {
        RunCounts(rule, bars, r, i + 1, Signal(o));
      } else {
        var entryIdx := i + d.delay;
        var x := FirstExit(bars, d.plan, entryIdx, r, entryIdx + 1);
        NoDrag(r);
        if x.Some? {
          var t := TradeOf(d.plan, entryIdx, r, x.value, ExitAt(bars, d.plan, entryIdx, r, x.value).value);
          var rest := TradesFrom(rule, bars, r, x.value + 1);
          RunCounts(rule, bars, r, x.value + 1, Record(Signal(o), r, t));
          DragGrows(r, |rest|);
        }
      }
    } else {
      NoDrag(r);
    }
  }

  /** The totals of a whole run are those of its trades; an engine that enters on every signal
      makes a trade of each, but for one still open at the end. */
  lemma RunTotals(rule: Rule, bars: seq<Bar>, r: Rules, win: nat)
    ensures
      var o := RunAll(rule, bars, r, win);
      && o.liquidations == Liquidated(o.trades) && o.feeDragPct == Drag(r, |o.trades|)
      && |o.trades| <= o.signals
      && ((forall i {:trigger rule(bars, i)} :: 0 <= i < |bars| ==> !rule(bars, i).NotEntered?) ==>
            o.signals <= |o.trades| + 1)
  {
    hide RunFrom, TradesFrom, Drag;
    NoDrag(r);
    RunTrades(rule, bars, r, win);
    RunCounts(rule, bars, r, win, NOTHING);
    if forall i {:trigger rule(bars, i)} :: 0 <= i < |bars| ==> !rule(bars, i).NotEntered? {
      SignalsTraded(rule, bars, r, win, NOTHING);
    }
  }

  lemma {:induction false} SignalsTraded(rule: Rule, bars: seq<Bar>, r: Rules, i: nat, o: Outcome)
    requires forall i {:trigger rule(bars, i)} :: 0 <= i < |bars| ==> !rule(bars, i).NotEntered?
    ensures RunFrom(rule, bars, r, i, o).signals - o.signals <= |TradesFrom(rule, bars, r, i)| + 1
    decreases |bars| - i
  {
    hide FirstExit, ExitAt, TradeOf;
    if i + 1 < |bars| {
      var d := rule(bars, i);
      if d.NoSignal? {
        SignalsTraded(rule, bars, r, i + 1, o);
      } else if d.Enter? {
        var entryIdx := i + d.delay;
        var x := FirstExit(bars, d.plan, entryIdx, r, entryIdx + 1);
        if x.Some? {
          var t := TradeOf(d.plan, entryIdx, r, x.value, ExitAt(bars, d.plan, entryIdx, r, x.value).value);
          SignalsTraded(rule, bars, r, x.value + 1, Record(Signal(o), r, t));
        }
      }
    }
  }

  lemma NoDrag(r: Rules)
    ensures Drag(r, 0) == 0.0
  {
  }

  // ----- every trade is what the bars make of it -----

  /** Entered at or after bar i, held to the first bar that triggers an exit. */
  predicate Genuine(bars: seq<Bar>, r: Rules, i: nat, t: Trade) {
    && i <= t.entryIdx < t.exitIdx < |bars|
    && FirstExit(bars, t.plan, t.entryIdx, r, t.entryIdx + 1) == Some(t.exitIdx)
    && ExitAt(bars, t.plan, t.entryIdx, r, t.exitIdx) == Some(t.exit)
    && t == TradeOf(t.plan, t.entryIdx, r, t.exitIdx, t.exit)
  }

  /** Trades are genuine, and none starts before the one before it has ended. */
  predicate InSequence(bars: seq<Bar>, r: Rules, i: nat, ts: seq<Trade>) {
    && (forall k :: 0 <= k < |ts| ==> Genuine(bars, r, i, ts[k]))
    && (forall j, k :: 0 <= j < k < |ts| ==> ts[j].exitIdx < ts[k].entryIdx)
  }

  lemma {:induction false} TradesInSequence(rule: Rule, bars: seq<Bar>, r: Rules, i: nat)
    ensures InSequence(bars, r, i, TradesFrom(rule, bars, r, i))
    decreases |bars| - i
  {
    hide FirstExit, ExitAt, TradeOf;
    if i + 1 < |bars| {
      var d := rule(bars, i);
      if !d.Enter? {
        TradesInSequence(rule, bars, r, i + 1);
      } else {
        var entryIdx := i + d.delay;
        var x := FirstExit(bars, d.plan, entryIdx, r, entryIdx + 1);
        if x.Some? {
          TradesInSequence(rule, bars, r, x.value + 1);
          TradeFields(d.plan, entryIdx, r, x.value, ExitAt(bars, d.plan, entryIdx, r, x.value).value);
        }
      }
    }
  }

  lemma TradeFields(s: Plan, entryIdx: nat, r: Rules, exitIdx: nat, x: Exit)
    ensures
      var t := TradeOf(s, entryIdx, r, exitIdx, x);
      t.plan == s && t.entryIdx == entryIdx && t.exitIdx == exitIdx && t.exit == x
  {
  }

  /** No trade outlives the holding limit; one bar is the least a trade lasts. */
  lemma HeldWithinLimit(bars: seq<Bar>, r: Rules, i: nat, t: Trade)
    requires Genuine(bars, r, i, t)
    ensures 1 <= t.exitIdx - t.entryIdx <= if r.maxHold < 1 then 1 else r.maxHold
  {
    var limit := t.entryIdx + if r.maxHold < 1 then 1 else r.maxHold;
    assert limit < t.exitIdx ==> ExitAt(bars, t.plan, t.entryIdx, r, limit).None?;
  }

  /** Per unit, a trade keeps what the price moved in its favour less two fees on the entry. */
  lemma RealizedIsGainLessFees(bars: seq<Bar>, r: Rules, i: nat, t: Trade)
    requires Genuine(bars, r, i, t)
    ensures t.realized == Gain(t.plan, t.exit.price) - t.plan.entry * r.takerFee * 2.0
  {
    hide FirstExit, ExitAt;
  }

  // ----- how much a trade can make or lose -----

  /** Stop one risk against the position, target `reward` in its favour. */
  predicate BracketedBy(p: Plan, reward: real) {
    && p.risk >= 0.0 && reward >= 0.0
    && Gain(p, p.stop) == -p.risk
    && p.target.Some? && Gain(p, p.target.value) == reward
  }

  /** The target is tpR risks away. */
  predicate Bracketed(p: Plan, tpR: real) {
    BracketedBy(p, tpR * p.risk)
  }

  lemma Reward(p: Plan, tpR: real) returns (reward: real)
    requires Bracketed(p, tpR)
    ensures reward == tpR * p.risk && BracketedBy(p, reward)
  {
    reward := tpR * p.risk;
  }

  /** What is lost per unit where the margin is gone. */
  function LiquidationLoss(p: Plan, r: Rules): real {
    p.entry * r.LiqFrac()
  }

  /** The exit price the engine books for each reason; a bar that reaches both target and
      stop counts as the target. */
  lemma GainByReason(bars: seq<Bar>, s: Plan, entryIdx: nat, r: Rules, j: nat)
    requires j < |bars| && bars[j].WellFormed() && ExitAt(bars, s, entryIdx, r, j).Some? && s.target.Some?
    ensures
      var x := ExitAt(bars, s, entryIdx, r, j).value;
      match x.reason
      case TakeProfit => x.price == s.target.value
      case StopLoss => x.price == s.stop
      case Liquidation => Gain(s, x.price) == -LiquidationLoss(s, r) && !HitsStop(s, bars[j])
                          && HitsLiquidation(s, r, bars[j])
      case TimeStop => !HitsStop(s, bars[j]) && !HitsTarget(s, bars[j])
                       && x.price == bars[j].close
    ensures
      var reason := ExitAt(bars, s, entryIdx, r, j).value.reason;
      && (reason.TakeProfit? <==> HitsTarget(s, bars[j]))
      && (reason.StopLoss? <==> HitsStop(s, bars[j]) && !HitsTarget(s, bars[j]))
      && (reason.TimeStop? ==> j - entryIdx >= r.maxHold && !HitsLiquidation(s, r, bars[j]))
  {
    hide Rules.LiqFrac, HitsLiquidation, HitsTarget, HitsStop;
  }

  lemma LiquidationDepth(p: Plan, r: Rules, b: Bar)
    requires HitsLiquidation(p, r, b)
    ensures (if p.side.Long? then p.entry - b.low else b.high - p.entry) >= LiquidationLoss(p, r) > 0.0
  {
    hide Rules.LiqFrac;
  }

  /** Until an exit bar triggers stop or target, the price stays between them. */
  lemma ExitGain(bars: seq<Bar>, r: Rules, t: Trade, reward: real)
    requires t.exitIdx < |bars| && bars[t.exitIdx].WellFormed()
    requires ExitAt(bars, t.plan, t.entryIdx, r, t.exitIdx) == Some(t.exit)
    requires BracketedBy(t.plan, reward)
    ensures -t.plan.risk <= Gain(t.plan, t.exit.price) <= reward
    ensures t.exit.reason.TakeProfit? ==> Gain(t.plan, t.exit.price) == reward
    ensures t.exit.reason.StopLoss? ==> Gain(t.plan, t.exit.price) == -t.plan.risk
    ensures t.exit.reason.Liquidation? ==> t.plan.risk > LiquidationLoss(t.plan, r)
  {
    hide ExitAt, HitsLiquidation, Rules.LiqFrac, LiquidationLoss;
    GainByReason(bars, t.plan, t.entryIdx, r, t.exitIdx);
    if t.exit.reason.Liquidation? {
      LiquidationInside(t.plan, r, bars[t.exitIdx], reward);
    }
  }

  lemma LiquidationInside(p: Plan, r: Rules, b: Bar, reward: real)
    requires HitsLiquidation(p, r, b) && !HitsStop(p, b) && BracketedBy(p, reward)
    ensures 0.0 < LiquidationLoss(p, r) < p.risk
  {
    hide HitsLiquidation, Rules.LiqFrac, LiquidationLoss;
    LiquidationDepth(p, r, b);
  }

  /** Every outcome, liquidations and time stops included, lies in [-1, tpR] risks; only a
      plan that risks nothing has none. */
  lemma PnlWithinBracket(bars: seq<Bar>, r: Rules, i: nat, t: Trade, tpR: real)
    requires Genuine(bars, r, i, t) && bars[t.exitIdx].WellFormed()
    requires Bracketed(t.plan, tpR)
    ensures t.pnlR.Some? <==> t.plan.risk > 0.0
    ensures t.pnlR.Some? ==> -1.0 <= t.pnlR.value <= tpR
    ensures t.pnlR.Some? && t.exit.reason.TakeProfit? ==> t.pnlR.value == tpR
    ensures t.pnlR.Some? && t.exit.reason.StopLoss? ==> t.pnlR.value == -1.0
  {
    hide Genuine, Bracketed, BracketedBy, Gain;
    var reward := Reward(t.plan, tpR);
    GenuineGain(bars, r, i, t, reward);
  }

  lemma GenuineGain(bars: seq<Bar>, r: Rules, i: nat, t: Trade, reward: real)
    requires Genuine(bars, r, i, t) && bars[t.exitIdx].WellFormed()
    requires BracketedBy(t.plan, reward)
    ensures t.plan.risk >= 0.0
    ensures t.pnlR == if t.plan.risk > 0.0 then Some(Gain(t.plan, t.exit.price) / t.plan.risk) else None
    ensures -t.plan.risk <= Gain(t.plan, t.exit.price) <= reward
    ensures t.exit.reason.TakeProfit? ==> Gain(t.plan, t.exit.price) == reward
    ensures t.exit.reason.StopLoss? ==> Gain(t.plan, t.exit.price) == -t.plan.risk
    ensures t.exit.reason.Liquidation? ==> t.plan.risk > LiquidationLoss(t.plan, r)
  {
    hide ExitAt, FirstExit, Rules.LiqFrac;
    ExitGain(bars, r, t, reward);
  }

  /** A stop no further away than 1/leverage is always reached before liquidation. */
  lemma NoLiquidationInsideStop(bars: seq<Bar>, r: Rules, i: nat, t: Trade, tpR: real)
    requires Genuine(bars, r, i, t) && bars[t.exitIdx].WellFormed()
    requires Bracketed(t.plan, tpR)
    requires t.plan.risk / t.plan.entry <= r.LiqFrac()
    ensures !t.exit.reason.Liquidation?
  {
    hide Genuine, Bracketed, BracketedBy, Gain;
    var reward := Reward(t.plan, tpR);
    GenuineGain(bars, r, i, t, reward);
  }

  // ----- causality -----

  /** The trades that had ended before bar m. */
  function EndedBefore(ts: seq<Trade>, m: nat): (r: seq<Trade>)
    ensures r <= ts
    ensures forall k :: 0 <= k < |r| ==> r[k].exitIdx < m
    ensures |r| < |ts| ==> ts[|r|].exitIdx >= m
  {
    if ts == [] || ts[0].exitIdx >= m then [] else [ts[0]] + EndedBefore(ts[1..], m)
  }

  /** The rule's decisions before m do not depend on the bars from m on. */
  ghost predicate CausalUpTo(rule: Rule, bars: seq<Bar>, m: nat)
    requires m <= |bars|
  {
    forall i: nat {:trigger rule(bars, i)} :: i < m ==> rule(bars[..m], i) == rule(bars, i)
  }

  lemma {:induction false} FirstExitPrefix(bars: seq<Bar>, s: Plan, entryIdx: nat, r: Rules, j: nat, m: nat)
    requires m <= |bars|
    ensures FirstExit(bars[..m], s, entryIdx, r, j) ==
            AsOf(FirstExit(bars, s, entryIdx, r, j), m)
    decreases |bars| - j
  {
    if j < m {
      assert ExitAt(bars[..m], s, entryIdx, r, j) == ExitAt(bars, s, entryIdx, r, j);
      FirstExitPrefix(bars, s, entryIdx, r, j + 1, m);
    }
  }

  lemma EndedPrepend(t: Trade, rest: seq<Trade>, m: nat)
    ensures EndedBefore([t] + rest, m) == if t.exitIdx >= m then [] else [t] + EndedBefore(rest, m)
  {
    assert ([t] + rest)[1..] == rest;
  }

  /** A position entered at bar i, seen with and without the bars from m on: both replays
      record it and go on after it, or it ends too late for either. */
  lemma CausalEntry(rule: Rule, bars: seq<Bar>, r: Rules, m: nat, i: nat)
    requires i + 1 < m <= |bars| && rule(bars[..m], i) == rule(bars, i) && rule(bars, i).Enter?
    ensures
      var d := rule(bars, i);
      var x := FirstExit(bars, d.plan, i + d.delay, r, i + d.delay + 1);
      if x.Some? && x.value < m then
        var t := TradeOf(d.plan, i + d.delay, r, x.value, ExitAt(bars, d.plan, i + d.delay, r, x.value).value);
        && TradesFrom(rule, bars[..m], r, i) == [t] + TradesFrom(rule, bars[..m], r, x.value + 1)
        && EndedBefore(TradesFrom(rule, bars, r, i), m)
           == [t] + EndedBefore(TradesFrom(rule, bars, r, x.value + 1), m)
      else TradesFrom(rule, bars[..m], r, i) == [] == EndedBefore(TradesFrom(rule, bars, r, i), m)
  {
    hide ExitAt, TradeOf, FirstExit, EndedBefore;
    var d := rule(bars, i);
    var entryIdx := i + d.delay;
    FirstExitPrefix(bars, d.plan, entryIdx, r, entryIdx + 1, m);
    var x := FirstExit(bars, d.plan, entryIdx, r, entryIdx + 1);
    if x.Some? {
      var exit := ExitAt(bars, d.plan, entryIdx, r, x.value).value;
      TradeFields(d.plan, entryIdx, r, x.value, exit);
      EndedPrepend(TradeOf(d.plan, entryIdx, r, x.value, exit), TradesFrom(rule, bars, r, x.value + 1), m);
      if x.value < m {
        SameExit(bars, d.plan, entryIdx, r, x.value, m);
      }
    }
  }

  /** Replaying the first m bars records exactly the trades of the full replay that had
      ended by then. */
  lemma {:induction false} ReplayIsCausal(rule: Rule, bars: seq<Bar>, r: Rules, m: nat, i: nat)
    requires m <= |bars| && CausalUpTo(rule, bars, m)
    ensures TradesFrom(rule, bars[..m], r, i) == EndedBefore(TradesFrom(rule, bars, r, i), m)
    decreases |bars| - i
  {
    hide FirstExit, ExitAt, TradeOf, EndedBefore;
    if i + 1 >= m {
      LateTradesEndLate(rule, bars, r, m, i);
    } else {
      var d := rule(bars, i);
      assert rule(bars[..m], i) == d;
      if !d.Enter? {
        ReplayIsCausal(rule, bars, r, m, i + 1);
      } else {
        var x := FirstExit(bars, d.plan, i + d.delay, r, i + d.delay + 1);
        if x.Some? && x.value < m {
          ReplayIsCausal(rule, bars, r, m, x.value + 1);
        }
        CausalEntry(rule, bars, r, m, i);
      }
    }
  }

  lemma LateTradesEndLate(rule: Rule, bars: seq<Bar>, r: Rules, m: nat, i: nat)
    requires m <= i + 1
    ensures EndedBefore(TradesFrom(rule, bars, r, i), m) == []
  {
    hide TradesFrom, FirstExit, ExitAt, TradeOf;
    TradesInSequence(rule, bars, r, i);
    var full := TradesFrom(rule, bars, r, i);
    assert full != [] ==> Genuine(bars, r, i, full[0]);
  }

  lemma SameExit(bars: seq<Bar>, s: Plan, entryIdx: nat, r: Rules, j: nat, m: nat)
    requires j < m <= |bars|
    ensures ExitAt(bars[..m], s, entryIdx, r, j) == ExitAt(bars, s, entryIdx, r, j)
  {
  }

  /** The same for whole runs, warm-up included. */
  lemma RunIsCausal(rule: Rule, bars: seq<Bar>, r: Rules, win: nat, m: nat)
    requires m <= |bars| && CausalUpTo(rule, bars, m)
    ensures RunAll(rule, bars[..m], r, win).trades == EndedBefore(RunAll(rule, bars, r, win).trades, m)
  {
    hide RunFrom, TradesFrom;
    RunTrades(rule, bars, r, win);
    RunTrades(rule, bars[..m], r, win);
    ReplayIsCausal(rule, bars, r, m, win);
  }

  lemma RunTrades(rule: Rule, bars: seq<Bar>, r: Rules, win: nat)
    ensures RunAll(rule, bars, r, win).trades == TradesFrom(rule, bars, r, win)
  {
    RunRecordsTrades(rule, bars, r, win, NOTHING);
  }

  /** Only the decisions on the bars from i on matter. */
  lemma {:induction false} SameDecisions(rule: Rule, rule': Rule, bars: seq<Bar>, r: Rules, i: nat)
    requires forall k: nat {:trigger rule(bars, k)} :: i <= k < |bars| ==> rule(bars, k) == rule'(bars, k)
    ensures TradesFrom(rule, bars, r, i) == TradesFrom(rule', bars, r, i)
    decreases |bars| - i
  {
    hide FirstExit, ExitAt, TradeOf;
    if i + 1 < |bars| {
      var d := rule(bars, i);
      if !d.Enter? {
        SameDecisions(rule, rule', bars, r, i + 1);
      } else {
        var x := FirstExit(bars, d.plan, i + d.delay, r, i + d.delay + 1);
        if x.Some? { SameDecisions(rule, rule', bars, r, x.value + 1); }
      }
    }
  }
}
